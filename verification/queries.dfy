/**
 Read-only queries: the transaction history and the statistics record
 (`get_transaction_history`, `get_blockchain_stats`).
 */
module Queries {
  import opened Transactions
  import opened Blocks
  import opened ZakatChain
  import opened Validation

  /** One history row: an entry tagged with its block's index and hash. */
  datatype HistoryEntry = HistoryEntry(tx: Transaction, blockIndex: nat, blockHash: string)

  /** `get_blockchain_stats`'s dictionary. */
  datatype Stats = Stats(
    totalBlocks: nat,
    totalTransactions: nat,
    totalZakatCollected: real,
    chainValid: bool,
    balances: map<string, real>,
    creatorRollNumber: string,
    totalNodes: nat,
    activeNodes: nat,
    nodesInfo: map<string, NodeInfo>)

  /** Every sealed entry, block by block, in entry order. */
  function AllTransactions(chain: seq<Block>): seq<Transaction> {
    if |chain| == 0 then []
    else AllTransactions(chain[..|chain| - 1]) + chain[|chain| - 1].transactions
  }

  /** The rows of one block. */
  function Tagged(b: Block): (rows: seq<HistoryEntry>)
    ensures |rows| == |b.transactions|
    ensures forall j :: 0 <= j < |rows| ==> rows[j] == HistoryEntry(b.transactions[j], b.index, b.hash)
  {
    seq(|b.transactions|, j requires 0 <= j < |b.transactions| => HistoryEntry(b.transactions[j], b.index, b.hash))
  }

  /** `get_transaction_history`: the rows of every block, in chain order. */
  function TransactionHistory(chain: seq<Block>): (rows: seq<HistoryEntry>)
    ensures |rows| == |AllTransactions(chain)|
  {
    if |chain| == 0 then []
    else TransactionHistory(chain[..|chain| - 1]) + Tagged(chain[|chain| - 1])
  }

  /** The history has one row per sealed entry, carrying that entry. */
  lemma {:induction false} HistoryEntries(chain: seq<Block>)
    ensures |TransactionHistory(chain)| == |AllTransactions(chain)|
    ensures forall k :: 0 <= k < |AllTransactions(chain)| ==> TransactionHistory(chain)[k].tx == AllTransactions(chain)[k]
    decreases |chain|
  {
    if |chain| > 0 {
      HistoryEntries(chain[..|chain| - 1]);
    }
  }

  /**
   Entry `j` of block `i` sits in the history after all entries of earlier
   blocks, tagged with block `i`'s index and hash.
   */
  lemma {:induction false} HistoryAt(chain: seq<Block>, i: nat, j: nat)
    requires i < |chain| && j < |chain[i].transactions|
    ensures |AllTransactions(chain[..i])| + j < |TransactionHistory(chain)|
    ensures TransactionHistory(chain)[|AllTransactions(chain[..i])| + j]
            == HistoryEntry(chain[i].transactions[j], chain[i].index, chain[i].hash)
    decreases |chain|
  {
    var n := |chain| - 1;
    var front := chain[..n];
    var h := TransactionHistory(front);
    assert TransactionHistory(chain) == h + Tagged(chain[n]);
    if i < n {
      assert chain[..i] == front[..i];
      assert front[i] == chain[i];
      HistoryAt(front, i, j);
      var k := |AllTransactions(chain[..i])| + j;
      assert k < |h|;
      assert (h + Tagged(chain[n]))[k] == h[k];
    } else {
      assert chain[..i] == front;
      assert |h| == |AllTransactions(chain[..i])|;
      assert Tagged(chain[n])[j] == HistoryEntry(chain[i].transactions[j], chain[i].index, chain[i].hash);
    }
  }

  /** The registry entries whose `is_active` flag is set. */
  function ActiveNodes(nodes: map<string, NodeInfo>): set<string> {
    set id | id in nodes && nodes[id].isActive
  }

  /**
   `get_blockchain_stats`: counts and sums taken over every sealed entry
   (the history's entries, pending ones excluded), the chain-validity
   verdict, and the registry counts.
   */
  method GetBlockchainStats(p: Primitives, l: Ledger) returns (s: Stats)
    ensures s.totalBlocks == |l.chain|
    ensures s.totalTransactions == |AllTransactions(l.chain)|
    ensures s.totalZakatCollected == ZakatSum(AllTransactions(l.chain))
    ensures s.chainValid <==> ChainValid(p, l.chain)
    ensures s.balances == l.balances && s.creatorRollNumber == l.creator && s.nodesInfo == l.nodes
    ensures s.totalNodes == |l.nodes| && s.activeNodes == |ActiveNodes(l.nodes)|
  {
    var totalZakat := 0.0;
    var total: nat := 0;
    var i := 0;
    while i < |l.chain|
      invariant 0 <= i <= |l.chain|
      invariant total == |AllTransactions(l.chain[..i])|
      invariant totalZakat == ZakatSum(AllTransactions(l.chain[..i]))
    {
      var txs := l.chain[i].transactions;
      var j := 0;
      while j < |txs|
        invariant 0 <= j <= |txs|
        invariant total == |AllTransactions(l.chain[..i])| + j
        invariant totalZakat == ZakatSum(AllTransactions(l.chain[..i])) + ZakatSum(txs[..j])
      {
        assert txs[..j + 1] == txs[..j] + [txs[j]];
        ZakatSumAppend(txs[..j], [txs[j]]);
        totalZakat := totalZakat + txs[j].zakatAmount;
        total := total + 1;
        j := j + 1;
      }
      assert l.chain[..i + 1][..i] == l.chain[..i];
      assert txs[..j] == txs;
      ZakatSumAppend(AllTransactions(l.chain[..i]), txs);
      i := i + 1;
    }
    assert l.chain[..i] == l.chain;
    var valid := ValidateChain(p, l.chain);
    s := Stats(|l.chain|, total, totalZakat, valid, l.balances, l.creator,
               |l.nodes|, |ActiveNodes(l.nodes)|, l.nodes);
  }

  /** In a well-formed registry every node is active, so the two node counts agree. */
  lemma AllNodesActive(nodes: map<string, NodeInfo>)
    requires forall id :: id in nodes ==> nodes[id].isActive
    ensures |ActiveNodes(nodes)| == |nodes|
  {
    assert ActiveNodes(nodes) == nodes.Keys;
  }

}
