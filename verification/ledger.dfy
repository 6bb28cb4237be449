/**
 The ledger (`ZakatBlockchain` in blockchain.py) as an immutable value with
 pure transitions. Every operation that mutates the Python object returns
 the new ledger; the ones that report success return a `Step`.
 */
module ZakatChain {
  import opened Wrappers
  import opened Digest
  import opened Transactions
  import opened Blocks

  /** A participant's registry record (the dictionaries in `self.nodes`). */
  datatype NodeInfo = NodeInfo(
    rollNumber: string,
    balance: real,
    joinedAt: string,
    transactionsCount: nat,
    totalZakatPaid: real,
    totalZakatReceived: real,
    isActive: bool)

  /** The ledger state: creator (the seed key), chain, pending entries, balances and registry. */
  datatype Ledger = Ledger(
    creator: string,
    chain: seq<Block>,
    pending: seq<Transaction>,
    balances: map<string, real>,
    nodes: map<string, NodeInfo>)

  /** The result of an operation that answers true or false, with the ledger after it. */
  datatype Step = Step(ok: bool, ledger: Ledger)

  /** Balances and registry: the two maps that `update_balances` changes. */
  datatype Accounts = Accounts(balances: map<string, real>, nodes: map<string, NodeInfo>)

  const ZAKAT_RATE: real := 0.025
  const MINING_REWARD: real := 10.0
  /** The amount written into the genesis entry, whatever the creator's starting balance. */
  const GENESIS_AMOUNT: real := 200.0

  /** `balances.get(address, 0.0)`. */
  function Get(balances: map<string, real>, address: string): real {
    if address in balances then balances[address] else 0.0
  }

  /** `get_balance`: the recorded balance, and zero for an address never seen. */
  function GetBalance(l: Ledger, address: string): (b: real)
    ensures address in l.balances ==> b == l.balances[address]
    ensures address !in l.balances ==> b == 0.0
  {
    Get(l.balances, address)
  }

  function LatestBlock(l: Ledger): Block
    requires |l.chain| > 0
  {
    l.chain[|l.chain| - 1]
  }

  /** `calculate_zakat`: 2.5% of the balance, i.e. a fortieth of it. */
  function CalculateZakat(balance: real): (zakat: real)
    ensures zakat * 40.0 == balance
    ensures zakat > 0.0 <==> balance > 0.0
  {
    balance * ZAKAT_RATE
  }

  /** The registry record `add_node` creates. */
  function FreshNode(id: string, initialBalance: real, now: string): NodeInfo {
    NodeInfo(id, initialBalance, now, 0, 0.0, 0.0, true)
  }

  /**
   `add_node`: refuses an id already in the registry; otherwise records it
   with zero counters, active, and gives it `initialBalance` only when the
   address has no balance entry yet.
   */
  function AddNode(l: Ledger, id: string, initialBalance: real, now: string): (s: Step)
    ensures s.ok <==> id !in l.nodes
    ensures !s.ok ==> s.ledger == l
    ensures s.ok ==> s.ledger.nodes == l.nodes[id := FreshNode(id, initialBalance, now)]
    ensures s.ok ==> GetBalance(s.ledger, id) == if id in l.balances then l.balances[id] else initialBalance
    ensures s.ok ==> forall a :: a != id ==> GetBalance(s.ledger, a) == GetBalance(l, a)
    ensures s.ok ==> s.ledger.balances.Keys == l.balances.Keys + {id}
    ensures s.ledger.creator == l.creator && s.ledger.chain == l.chain && s.ledger.pending == l.pending
  {
    if id in l.nodes then Step(false, l)
    else
      var balances := if id in l.balances then l.balances else l.balances[id := initialBalance];
      Step(true, l.(nodes := l.nodes[id := FreshNode(id, initialBalance, now)], balances := balances))
  }

  /** `create_genesis_block`: one genesis entry of 200.0, previous hash "0", never mined. */
  function GenesisBlock(p: Primitives, creator: string, now: string): (b: Block)
    ensures b.index == 0 && b.previousHash == "0" && b.rollNumber == creator && b.nonce == 0
    ensures b.transactions == [Transaction(GENESIS_SENDER, creator, GENESIS_AMOUNT, 0.0, Genesis, now)]
    ensures Sealed(p, b)
  {
    var genesis := MakeTransaction(GENESIS_SENDER, creator, GENESIS_AMOUNT, 0.0, Genesis, "", now);
    NewBlock(p, 0, [genesis], "0", creator, now)
  }

  /**
   The constructor: the creator's balance is set directly, the creator is
   registered, and the genesis block is appended. The genesis entry is never
   applied, so the creator's balance is `initialBalance`, not the 200.0 the
   entry carries.
   */
  function NewLedger(p: Primitives, creator: string, initialBalance: real, now: string): (l: Ledger)
    ensures l.creator == creator && l.pending == []
    ensures l.chain == [GenesisBlock(p, creator, now)]
    ensures l.balances == map[creator := initialBalance]
    ensures l.nodes == map[creator := FreshNode(creator, initialBalance, now)]
  {
    var start := Ledger(creator, [], [], map[creator := initialBalance], map[]);
    var registered := AddNode(start, creator, initialBalance, now).ledger;
    registered.(chain := registered.chain + [GenesisBlock(p, creator, now)])
  }

  /** `validate_transaction`: the sender's current balance covers amount plus zakat; no sender is exempt. */
  predicate ValidateTransaction(l: Ledger, tx: Transaction) {
    !(GetBalance(l, tx.sender) < tx.amount + tx.zakatAmount)
  }

  /**
   `add_transaction`: the entry goes to the end of the pending list exactly
   when the sender's current balance covers amount plus zakat; otherwise
   nothing changes. Funds already committed by pending entries are not
   subtracted.
   */
  function AddTransaction(l: Ledger, tx: Transaction): (s: Step)
    ensures s.ok <==> GetBalance(l, tx.sender) >= tx.amount + tx.zakatAmount
    ensures s.ok ==> s.ledger == l.(pending := l.pending + [tx])
    ensures !s.ok ==> s.ledger == l
  {
    if !ValidateTransaction(l, tx) then Step(false, l)
    else Step(true, l.(pending := l.pending + [tx]))
  }

  /**
   Validation exempts nobody: an issuer account (`System`, `Genesis`) that
   has no balance entry cannot have a costly entry accepted.
   */
  lemma IssuersNotExempt(l: Ledger, tx: Transaction)
    requires IsIssuer(tx.sender) && tx.sender !in l.balances && tx.amount + tx.zakatAmount > 0.0
    ensures !ValidateTransaction(l, tx) && !AddTransaction(l, tx).ok
  {
  }

  /**
   Validation reserves nothing: the verdict ignores the pending list, so an
   accepted entry is accepted again, however often it is queued.
   */
  lemma PendingReservesNothing(l: Ledger, tx: Transaction, queued: seq<Transaction>)
    ensures ValidateTransaction(l.(pending := queued), tx) <==> ValidateTransaction(l, tx)
    ensures AddTransaction(l, tx).ok ==> AddTransaction(AddTransaction(l, tx).ledger, tx).ok
  {
  }

  /**
   `create_zakat_transaction`: a zakat entry of 2.5% of the sender's balance
   and amount 0. It is enqueued exactly when that balance is positive: a
   positive levy is always covered by the balance it was taken from.
   */
  function CreateZakatTransaction(l: Ledger, from: string, to: string, now: string): (s: Step)
    ensures s.ok <==> GetBalance(l, from) > 0.0
    ensures s.ok ==> s.ledger == l.(pending := l.pending + [Transaction(from, to, 0.0, GetBalance(l, from) / 40.0, Zakat, now)])
    ensures !s.ok ==> s.ledger == l
  {
    var zakat := CalculateZakat(GetBalance(l, from));
    if zakat > 0.0 then
      AddTransaction(l, MakeTransaction(from, to, 0.0, zakat, Zakat, "", now))
    else Step(false, l)
  }

  /**
   `create_transfer_transaction`: a transfer carrying the requested amount
   and a levy of 2.5% of the sender's whole balance, so it is accepted
   exactly when the amount is at most 97.5% of that balance.
   */
  function CreateTransferTransaction(l: Ledger, from: string, to: string, amount: real, now: string): (s: Step)
    ensures s.ok <==> amount <= 0.975 * GetBalance(l, from)
    ensures s.ok ==> s.ledger == l.(pending := l.pending + [Transaction(from, to, amount, GetBalance(l, from) / 40.0, Transfer, now)])
    ensures !s.ok ==> s.ledger == l
  {
    var zakat := CalculateZakat(GetBalance(l, from));
    AddTransaction(l, MakeTransaction(from, to, amount, zakat, Transfer, "", now))
  }

  /**
   A gift: built by callers with zakat 0 and passed straight to
   `add_transaction`, so it is accepted exactly when the balance covers the
   amount.
   */
  function CreateGiftTransaction(l: Ledger, from: string, to: string, amount: real, now: string): (s: Step)
    ensures s.ok <==> amount <= GetBalance(l, from)
    ensures s.ok ==> s.ledger == l.(pending := l.pending + [Transaction(from, to, amount, 0.0, Gift, now)])
    ensures !s.ok ==> s.ledger == l
  {
    AddTransaction(l, MakeTransaction(from, to, amount, 0.0, Gift, "", now))
  }

  /**
   `update_node_stats`: for a registered id, one more transaction, the
   zakat counters increased, and the balance snapshot refreshed; unknown
   ids are ignored.
   */
  function UpdateNodeStats(nodes: map<string, NodeInfo>, balances: map<string, real>, id: string,
                           zakatPaid: real, zakatReceived: real): (r: map<string, NodeInfo>)
    ensures r.Keys == nodes.Keys
    ensures forall a :: a in nodes && a != id ==> r[a] == nodes[a]
    ensures id in nodes ==> r[id] == nodes[id].(transactionsCount := nodes[id].transactionsCount + 1,
                                                 totalZakatPaid := nodes[id].totalZakatPaid + zakatPaid,
                                                 totalZakatReceived := nodes[id].totalZakatReceived + zakatReceived,
                                                 balance := Get(balances, id))
  {
    if id in nodes then
      var n := nodes[id];
      nodes[id := n.(transactionsCount := n.transactionsCount + 1,
                     totalZakatPaid := n.totalZakatPaid + zakatPaid,
                     totalZakatReceived := n.totalZakatReceived + zakatReceived,
                     balance := Get(balances, id))]
    else nodes
  }

  /**
   One iteration of `update_balances`: unless the sender is an issuer it is
   debited amount plus zakat and its stats updated; the receiver is then
   credited the amount only; a zakat entry to someone other than the fund
   counts as zakat received.
   */
  function ApplyTransaction(acc: Accounts, tx: Transaction): (r: Accounts)
    ensures forall a :: Get(r.balances, a) == Get(acc.balances, a)
                                              + (if tx.receiver == a then tx.amount else 0.0)
                                              - (if tx.sender == a && !IsIssuer(a) then tx.amount + tx.zakatAmount else 0.0)
    ensures r.nodes.Keys == acc.nodes.Keys
  {
    var debited :=
      if IsIssuer(tx.sender) then acc
      else
        var b := acc.balances[tx.sender := Get(acc.balances, tx.sender) - (tx.amount + tx.zakatAmount)];
        Accounts(b, UpdateNodeStats(acc.nodes, b, tx.sender, tx.zakatAmount, 0.0));
    var credited := debited.balances[tx.receiver := Get(debited.balances, tx.receiver) + tx.amount];
    var nodes :=
      if tx.txType == Zakat && tx.receiver != ZAKAT_FUND
      then UpdateNodeStats(debited.nodes, credited, tx.receiver, 0.0, tx.zakatAmount)
      else debited.nodes;
    Accounts(credited, nodes)
  }

  /** `update_balances`: the entries applied one after another, in order. */
  function UpdateBalances(acc: Accounts, txs: seq<Transaction>): Accounts
    decreases |txs|
  {
    if |txs| == 0 then acc else UpdateBalances(ApplyTransaction(acc, txs[0]), txs[1..])
  }

  /** The entry `mine_pending_transactions` appends for the miner. */
  function RewardTransaction(miner: string, now: string): (tx: Transaction)
    ensures tx == Transaction(SYSTEM, miner, MINING_REWARD, 0.0, MiningReward, now)
  {
    MakeTransaction(SYSTEM, miner, MINING_REWARD, 0.0, MiningReward, "", now)
  }

  /** The unmined block: pending entries plus the reward, seeded with the creator's id. */
  function PrepareBlock(p: Primitives, l: Ledger, miner: string, now: string): (b: Block)
    requires |l.chain| > 0
    ensures b.index == |l.chain| && b.previousHash == LatestBlock(l).hash && b.rollNumber == l.creator
    ensures b.transactions == l.pending + [RewardTransaction(miner, now)]
    ensures Sealed(p, b)
  {
    NewBlock(p, |l.chain|, l.pending + [RewardTransaction(miner, now)], LatestBlock(l).hash, l.creator, now)
  }

  /** Append the mined block, apply its entries, and clear the pending list. */
  function CommitBlock(l: Ledger, b: Block): (r: Ledger)
    ensures r.chain == l.chain + [b] && r.pending == [] && r.creator == l.creator
  {
    var applied := UpdateBalances(Accounts(l.balances, l.nodes), b.transactions);
    l.(chain := l.chain + [b], balances := applied.balances, nodes := applied.nodes, pending := [])
  }

  /**
   `mine_pending_transactions`: exactly one block is appended, whoever mines
   it carries the creator's seed, it links to the previous head and holds
   the old pending list followed by the miner's reward, its hash is its own
   and meets the difficulty, and the pending list is empty afterwards.
   `None` only when the nonce search ran out of fuel.
   */
  function MinePendingTransactions(p: Primitives, l: Ledger, miner: string, now: string, fuel: nat): (r: Option<Ledger>)
    requires |l.chain| > 0
    ensures r.Some? ==> |r.value.chain| == |l.chain| + 1 && r.value.chain[..|l.chain|] == l.chain
    ensures r.Some? ==> var b := r.value.chain[|l.chain|];
                        && b.index == |l.chain|
                        && b.previousHash == LatestBlock(l).hash
                        && b.rollNumber == l.creator
                        && b.transactions == l.pending + [Transaction(SYSTEM, miner, MINING_REWARD, 0.0, MiningReward, now)]
                        && Sealed(p, b)
                        && MeetsTarget(b.hash, DIFFICULTY)
    ensures r.Some? ==> r.value.pending == [] && r.value.creator == l.creator
  {
    var block := PrepareBlock(p, l, miner, now);
    MinedBlockSealed(p, block, DIFFICULTY, fuel);
    match MineBlock(p, block, DIFFICULTY, fuel)
    case None => None
    case Some(mined) =>
      var r := CommitBlock(l, mined);
      assert r.chain[..|l.chain|] == l.chain;
      Some(r)
  }

}
