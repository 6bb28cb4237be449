/**
 What applying a block does to balances and to the registry counters, and
 what mining does to the total supply.
 */
module Accounting {
  import opened Transactions
  import opened Blocks
  import opened ZakatChain

  /** The sum of the balances of the accounts in `keys`. */
  ghost function SumOver(m: map<string, real>, keys: set<string>): real
    requires keys <= m.Keys
    decreases keys
  {
    if keys == {} then 0.0
    else
      var k :| k in keys;
      m[k] + SumOver(m, keys - {k})
  }

  /** The sum of all balances in a map. */
  ghost function Total(m: map<string, real>): real {
    SumOver(m, m.Keys)
  }

  /** The sum does not depend on which account is taken out first. */
  lemma {:induction false} SumOverRemove(m: map<string, real>, keys: set<string>, k: string)
    requires keys <= m.Keys && k in keys
    ensures SumOver(m, keys) == m[k] + SumOver(m, keys - {k})
    decreases keys
  {
    var j :| j in keys && SumOver(m, keys) == m[j] + SumOver(m, keys - {j});
    if j != k {
      SumOverRemove(m, keys - {j}, k);
      SumOverRemove(m, keys - {k}, j);
      assert keys - {j} - {k} == keys - {k} - {j};
    }
  }

  /** The sum over `keys` only reads the balances of `keys`. */
  lemma {:induction false} SumOverAgree(m: map<string, real>, m': map<string, real>, keys: set<string>)
    requires keys <= m.Keys && keys <= m'.Keys
    requires forall x :: x in keys ==> m[x] == m'[x]
    ensures SumOver(m, keys) == SumOver(m', keys)
    decreases keys
  {
    if keys != {} {
      var k :| k in keys && SumOver(m, keys) == m[k] + SumOver(m, keys - {k});
      SumOverRemove(m', keys, k);
      SumOverAgree(m, m', keys - {k});
    }
  }

  /** Adding `d` to one account (created at zero if absent) adds `d` to the total. */
  lemma TotalUpdate(m: map<string, real>, k: string, d: real)
    ensures Total(m[k := Get(m, k) + d]) == Total(m) + d
  {
    var m' := m[k := Get(m, k) + d];
    SumOverRemove(m', m'.Keys, k);
    assert m'.Keys - {k} == m.Keys - {k};
    SumOverAgree(m, m', m.Keys - {k});
    if k in m {
      SumOverRemove(m, m.Keys, k);
    } else {
      assert m.Keys - {k} == m.Keys;
    }
  }

  /**
   Registering a node adds its starting balance to the sum of balances,
   unless the id already had a balance, which is kept.
   */
  lemma AddNodeTotal(l: Ledger, id: string, initialBalance: real, now: string)
    ensures var s := AddNode(l, id, initialBalance, now);
            s.ok ==> Total(s.ledger.balances) == Total(l.balances) + (if id in l.balances then 0.0 else initialBalance)
  {
    var s := AddNode(l, id, initialBalance, now);
    if s.ok && id !in l.balances {
      TotalUpdate(l.balances, id, initialBalance);
      assert l.balances[id := Get(l.balances, id) + initialBalance] == s.ledger.balances;
    }
  }

  /** What `update_balances` credits to `a`: the amounts of entries it receives. */
  function Credit(txs: seq<Transaction>, a: string): real {
    if |txs| == 0 then 0.0
    else (if txs[0].receiver == a then txs[0].amount else 0.0) + Credit(txs[1..], a)
  }

  /** What `update_balances` debits from `a`: amount plus zakat of entries it sends, unless it is an issuer. */
  function Debit(txs: seq<Transaction>, a: string): real {
    if |txs| == 0 then 0.0
    else (if txs[0].sender == a && !IsIssuer(a) then txs[0].amount + txs[0].zakatAmount else 0.0)
         + Debit(txs[1..], a)
  }

  /**
   The net change of supply an entry causes: an issuer's entry creates its
   amount, any other entry destroys its zakat (the sender pays it, nobody
   receives it).
   */
  function Issuance(txs: seq<Transaction>): real {
    if |txs| == 0 then 0.0 else EntryIssuance(txs[0]) + Issuance(txs[1..])
  }

  function EntryIssuance(tx: Transaction): real {
    if IsIssuer(tx.sender) then tx.amount else -tx.zakatAmount
  }

  /** One applied entry moves the sum of balances by its issuance. */
  lemma ApplyTransactionTotal(acc: Accounts, tx: Transaction)
    ensures Total(ApplyTransaction(acc, tx).balances) == Total(acc.balances) + EntryIssuance(tx)
  {
    if IsIssuer(tx.sender) {
      TotalUpdate(acc.balances, tx.receiver, tx.amount);
    } else {
      var b := acc.balances[tx.sender := Get(acc.balances, tx.sender) - (tx.amount + tx.zakatAmount)];
      TotalUpdate(acc.balances, tx.sender, -(tx.amount + tx.zakatAmount));
      TotalUpdate(b, tx.receiver, tx.amount);
    }
  }

  /** Addresses that get a balance entry when the entries are applied. */
  function Touched(txs: seq<Transaction>): set<string> {
    if |txs| == 0 then {}
    else (if IsIssuer(txs[0].sender) then {} else {txs[0].sender}) + {txs[0].receiver} + Touched(txs[1..])
  }

  /**
   Every account ends with its old balance plus what it received minus what
   it paid: no other balance changes.
   */
  lemma {:induction false} UpdateBalancesPerAccount(acc: Accounts, txs: seq<Transaction>, a: string)
    ensures Get(UpdateBalances(acc, txs).balances, a) == Get(acc.balances, a) + Credit(txs, a) - Debit(txs, a)
    decreases |txs|
  {
    if |txs| > 0 {
      UpdateBalancesPerAccount(ApplyTransaction(acc, txs[0]), txs[1..], a);
    }
  }

  /** Entries are applied in order: applying `a + b` is applying `a`, then `b`. */
  lemma {:induction false} UpdateBalancesAppend(acc: Accounts, a: seq<Transaction>, b: seq<Transaction>)
    ensures UpdateBalances(acc, a + b) == UpdateBalances(UpdateBalances(acc, a), b)
    decreases |a|
  {
    if |a| > 0 {
      assert (a + b)[0] == a[0];
      assert (a + b)[1..] == a[1..] + b;
      UpdateBalancesAppend(ApplyTransaction(acc, a[0]), a[1..], b);
    } else {
      assert a + b == b;
    }
  }

  /** Applying entries only adds balance entries, exactly for the addresses they touch. */
  lemma {:induction false} UpdateBalancesKeys(acc: Accounts, txs: seq<Transaction>)
    ensures UpdateBalances(acc, txs).balances.Keys == acc.balances.Keys + Touched(txs)
    ensures UpdateBalances(acc, txs).nodes.Keys == acc.nodes.Keys
    decreases |txs|
  {
    if |txs| > 0 {
      UpdateBalancesKeys(ApplyTransaction(acc, txs[0]), txs[1..]);
    }
  }

  /** The sum of balances moves by exactly the entries' net issuance. */
  lemma {:induction false} UpdateBalancesTotal(acc: Accounts, txs: seq<Transaction>)
    ensures Total(UpdateBalances(acc, txs).balances) == Total(acc.balances) + Issuance(txs)
    decreases |txs|
  {
    if |txs| > 0 {
      ApplyTransactionTotal(acc, txs[0]);
      UpdateBalancesTotal(ApplyTransaction(acc, txs[0]), txs[1..]);
    }
  }

  /** How many times `update_node_stats` is called for `id`. */
  function StatEvents(txs: seq<Transaction>, id: string): nat {
    if |txs| == 0 then 0
    else (if txs[0].sender == id && !IsIssuer(id) then 1 else 0)
         + (if txs[0].txType == Zakat && txs[0].receiver != ZAKAT_FUND && txs[0].receiver == id then 1 else 0)
         + StatEvents(txs[1..], id)
  }

  /** Zakat `id` is recorded as paying. */
  function ZakatPaidBy(txs: seq<Transaction>, id: string): real {
    if |txs| == 0 then 0.0
    else (if txs[0].sender == id && !IsIssuer(id) then txs[0].zakatAmount else 0.0) + ZakatPaidBy(txs[1..], id)
  }

  /** Zakat `id` is recorded as receiving, though its balance is credited only the entries' amounts. */
  function ZakatReceivedBy(txs: seq<Transaction>, id: string): real {
    if |txs| == 0 then 0.0
    else (if txs[0].txType == Zakat && txs[0].receiver != ZAKAT_FUND && txs[0].receiver == id
          then txs[0].zakatAmount else 0.0)
         + ZakatReceivedBy(txs[1..], id)
  }

  /**
   A registered node's counters grow by exactly its events in the block;
   its identity, join time and activity flag do not change, and a node with
   no event keeps its old balance snapshot whatever it received.
   */
  lemma {:induction false} UpdateBalancesNodeStats(acc: Accounts, txs: seq<Transaction>, id: string)
    requires id in acc.nodes
    ensures var n := UpdateBalances(acc, txs).nodes;
            && id in n
            && n[id].transactionsCount == acc.nodes[id].transactionsCount + StatEvents(txs, id)
            && n[id].totalZakatPaid == acc.nodes[id].totalZakatPaid + ZakatPaidBy(txs, id)
            && n[id].totalZakatReceived == acc.nodes[id].totalZakatReceived + ZakatReceivedBy(txs, id)
            && n[id].rollNumber == acc.nodes[id].rollNumber
            && n[id].joinedAt == acc.nodes[id].joinedAt
            && n[id].isActive == acc.nodes[id].isActive
            && (StatEvents(txs, id) == 0 ==> n[id].balance == acc.nodes[id].balance)
    decreases |txs|
  {
    if |txs| > 0 {
      ApplyTransactionNodeStats(acc, txs[0], id);
      UpdateBalancesNodeStats(ApplyTransaction(acc, txs[0]), txs[1..], id);
    }
  }

  /** One entry's effect on a registered node's record. */
  lemma ApplyTransactionNodeStats(acc: Accounts, tx: Transaction, id: string)
    requires id in acc.nodes
    ensures var n := ApplyTransaction(acc, tx).nodes;
            var sent := tx.sender == id && !IsIssuer(id);
            var received := tx.txType == Zakat && tx.receiver != ZAKAT_FUND && tx.receiver == id;
            && id in n
            && n[id].transactionsCount == acc.nodes[id].transactionsCount + (if sent then 1 else 0) + (if received then 1 else 0)
            && n[id].totalZakatPaid == acc.nodes[id].totalZakatPaid + (if sent then tx.zakatAmount else 0.0)
            && n[id].totalZakatReceived == acc.nodes[id].totalZakatReceived + (if received then tx.zakatAmount else 0.0)
            && n[id].rollNumber == acc.nodes[id].rollNumber
            && n[id].joinedAt == acc.nodes[id].joinedAt
            && n[id].isActive == acc.nodes[id].isActive
            && (!sent && !received ==> n[id].balance == acc.nodes[id].balance)
  {
  }

  /**
   Sending refreshes the sender's snapshot: after a non-issuer sends an
   entry to someone else, its registry balance equals its new balance.
   */
  lemma SnapshotRefreshedBySender(acc: Accounts, tx: Transaction)
    requires tx.sender in acc.nodes && !IsIssuer(tx.sender) && tx.receiver != tx.sender
    ensures var r := ApplyTransaction(acc, tx);
            r.nodes[tx.sender].balance == Get(r.balances, tx.sender)
  {
  }

  /**
   Receiving does not refresh the snapshot: a registered receiver of a
   transfer keeps its registry record unchanged while its balance rises by
   the amount, so the snapshot goes stale.
   */
  lemma SnapshotStaleForReceiver(acc: Accounts, tx: Transaction)
    requires tx.receiver in acc.nodes && tx.txType == Transfer && tx.sender != tx.receiver
    ensures var r := ApplyTransaction(acc, tx);
            && r.nodes[tx.receiver] == acc.nodes[tx.receiver]
            && Get(r.balances, tx.receiver) == Get(acc.balances, tx.receiver) + tx.amount
  {
  }

  lemma {:induction false} IssuanceAppend(a: seq<Transaction>, b: seq<Transaction>)
    ensures Issuance(a + b) == Issuance(a) + Issuance(b)
    decreases |a|
  {
    if |a| > 0 {
      assert (a + b)[1..] == a[1..] + b;
      IssuanceAppend(a[1..], b);
    } else {
      assert a + b == b;
    }
  }

  /** Without issuer-sent entries, the net issuance is minus the zakat carried. */
  lemma {:induction false} IssuanceWithoutIssuers(txs: seq<Transaction>)
    requires forall k :: 0 <= k < |txs| ==> !IsIssuer(txs[k].sender)
    ensures Issuance(txs) == -ZakatSum(txs)
    decreases |txs|
  {
    if |txs| > 0 {
      IssuanceWithoutIssuers(txs[1..]);
    }
  }

  /**
   Mining moves each balance by what the block's entries (the pending list
   and the reward) credit and debit it, and nothing else.
   */
  lemma MinedBalances(p: Primitives, l: Ledger, miner: string, now: string, fuel: nat, a: string)
    requires |l.chain| > 0
    ensures var r := MinePendingTransactions(p, l, miner, now, fuel);
            var txs := l.pending + [RewardTransaction(miner, now)];
            r.Some? ==> GetBalance(r.value, a) == GetBalance(l, a) + Credit(txs, a) - Debit(txs, a)
  {
    var r := MinePendingTransactions(p, l, miner, now, fuel);
    if r.Some? {
      var b := r.value.chain[|l.chain|];
      UpdateBalancesPerAccount(Accounts(l.balances, l.nodes), b.transactions, a);
    }
  }

  /**
   Each mined block changes the sum of all balances by the mining reward
   minus the zakat of its entries, provided no pending entry is sent by an
   issuer (validation does not stop one whose issuer account holds funds).
   */
  lemma MinedSupply(p: Primitives, l: Ledger, miner: string, now: string, fuel: nat)
    requires |l.chain| > 0
    requires forall k :: 0 <= k < |l.pending| ==> !IsIssuer(l.pending[k].sender)
    ensures var r := MinePendingTransactions(p, l, miner, now, fuel);
            r.Some? ==> Total(r.value.balances) == Total(l.balances) + MINING_REWARD - ZakatSum(l.pending)
  {
    var r := MinePendingTransactions(p, l, miner, now, fuel);
    if r.Some? {
      var reward := RewardTransaction(miner, now);
      UpdateBalancesTotal(Accounts(l.balances, l.nodes), l.pending + [reward]);
      IssuanceAppend(l.pending, [reward]);
      IssuanceWithoutIssuers(l.pending);
    }
  }

  /**
   The supply is not conserved: once a pending entry carries zakat, the sum
   of balances after mining falls short of the old sum plus the reward,
   because zakat is debited from senders and credited to nobody.
   */
  lemma ZakatLeavesSupply(p: Primitives, l: Ledger, miner: string, now: string, fuel: nat)
    requires |l.chain| > 0
    requires forall k :: 0 <= k < |l.pending| ==> !IsIssuer(l.pending[k].sender)
    requires ZakatSum(l.pending) > 0.0
    ensures var r := MinePendingTransactions(p, l, miner, now, fuel);
            r.Some? ==> Total(r.value.balances) < Total(l.balances) + MINING_REWARD
  {
    MinedSupply(p, l, miner, now, fuel);
  }

}
