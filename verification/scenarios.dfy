/**
 The ledger's test scenarios (test_blockchain.py, test_multi_node.py)
 restated as lemmas about the model, plus the consequences of validating
 without reserving funds. Hash function and clock are left arbitrary; a
 scenario that mines states what holds if the nonce search succeeds.
 */
module Scenarios {
  import opened Transactions
  import opened Blocks
  import opened ZakatChain
  import opened Validation
  import opened Accounting
  import opened Invariants

  /** Construction: one genesis block seeded with the creator, who holds the starting balance. */
  lemma CreationScenario(p: Primitives, now: string)
    ensures var l := NewLedger(p, "2021-CS-001", 200.0, now);
            |l.chain| == 1 && GetBalance(l, "2021-CS-001") == 200.0 && l.chain[0].rollNumber == "2021-CS-001"
            && ChainValid(p, l.chain)
  {
  }

  /** What a three-entry block credits and debits to one account, entry by entry. */
  lemma ThreeEntryFlows(x: Transaction, y: Transaction, z: Transaction, a: string)
    ensures Credit([x, y, z], a) == (if x.receiver == a then x.amount else 0.0)
                                  + (if y.receiver == a then y.amount else 0.0)
                                  + (if z.receiver == a then z.amount else 0.0)
    ensures Debit([x, y, z], a) == (if x.sender == a && !IsIssuer(a) then x.amount + x.zakatAmount else 0.0)
                                 + (if y.sender == a && !IsIssuer(a) then y.amount + y.zakatAmount else 0.0)
                                 + (if z.sender == a && !IsIssuer(a) then z.amount + z.zakatAmount else 0.0)
  {
    assert [x, y, z][1..] == [y, z];
    assert [y, z][1..] == [z];
    assert [z][1..] == [];
    assert Credit([z], a) == (if z.receiver == a then z.amount else 0.0) + Credit([], a);
    assert Debit([z], a) == (if z.sender == a && !IsIssuer(a) then z.amount + z.zakatAmount else 0.0) + Debit([], a);
  }

  /** The four zakat values the tests check. */
  lemma ZakatExamples()
    ensures CalculateZakat(200.0) == 5.0 && CalculateZakat(100.0) == 2.5
    ensures CalculateZakat(400.0) == 10.0 && CalculateZakat(50.0) == 1.25
  {
  }

  /**
   A zakat entry and a 50-coin transfer from a 200-coin creator are both
   enqueued; a 1000-coin transfer is refused and leaves the pending list as it was.
   */
  lemma TransactionCreationScenario(p: Primitives, now: string)
    ensures var c := "2021-CS-003";
            var l0 := NewLedger(p, c, 200.0, now);
            var s1 := CreateZakatTransaction(l0, c, ZAKAT_FUND, now);
            var s2 := CreateTransferTransaction(s1.ledger, c, "2021-CS-004", 50.0, now);
            var s3 := CreateTransferTransaction(s2.ledger, c, "2021-CS-005", 1000.0, now);
            && s1.ok && |s1.ledger.pending| == 1
            && s2.ok && |s2.ledger.pending| == 2
            && !s3.ok && s3.ledger.pending == s2.ledger.pending
  {
  }

  /**
   A zakat payment and a transfer queued together and mined by the payer:
   both levies are taken on the same unmined balance `B`, so the payer
   ends with `B - 2 * B/40 - amount + reward`; the receiver gains `amount`
   and the zakat fund nothing.
   */
  lemma ZakatAndTransferThenMine(p: Primitives, l: Ledger, c: string, to: string, amount: real, now: string, fuel: nat)
    requires |l.chain| > 0 && l.pending == []
    requires !IsIssuer(c) && c != to && c != ZAKAT_FUND && to != ZAKAT_FUND
    requires 0.0 < GetBalance(l, c) && amount <= 0.975 * GetBalance(l, c)
    ensures var s1 := CreateZakatTransaction(l, c, ZAKAT_FUND, now);
            var s2 := CreateTransferTransaction(s1.ledger, c, to, amount, now);
            var r := MinePendingTransactions(p, s2.ledger, c, now, fuel);
            && s1.ok && s2.ok
            && (r.Some? ==>
                  && |r.value.chain| == |l.chain| + 1 && r.value.pending == []
                  && GetBalance(r.value, c) == GetBalance(l, c) - 2.0 * (GetBalance(l, c) / 40.0) - amount + MINING_REWARD
                  && GetBalance(r.value, to) == GetBalance(l, to) + amount
                  && GetBalance(r.value, ZAKAT_FUND) == GetBalance(l, ZAKAT_FUND))
  {
    var bal := GetBalance(l, c);
    var s1 := CreateZakatTransaction(l, c, ZAKAT_FUND, now);
    var s2 := CreateTransferTransaction(s1.ledger, c, to, amount, now);
    var r := MinePendingTransactions(p, s2.ledger, c, now, fuel);
    if r.Some? {
      var z := Transaction(c, ZAKAT_FUND, 0.0, bal / 40.0, Zakat, now);
      var t := Transaction(c, to, amount, bal / 40.0, Transfer, now);
      assert s2.ledger.pending + [RewardTransaction(c, now)] == [z, t, RewardTransaction(c, now)];
      ThreeEntryFlows(z, t, RewardTransaction(c, now), c);
      ThreeEntryFlows(z, t, RewardTransaction(c, now), to);
      ThreeEntryFlows(z, t, RewardTransaction(c, now), ZAKAT_FUND);
      MinedBalances(p, s2.ledger, c, now, fuel, c);
      MinedBalances(p, s2.ledger, c, now, fuel, to);
      MinedBalances(p, s2.ledger, c, now, fuel, ZAKAT_FUND);
    }
  }

  /**
   The mining test: the creator of a 200-coin ledger pays zakat and sends
   30, then mines; it ends with 200 - 5 - 35 + 10 = 170, the receiver
   holds 30 and the zakat fund nothing.
   */
  lemma MiningScenario(p: Primitives, now: string, fuel: nat)
    ensures var c := "2021-CS-006";
            var l0 := NewLedger(p, c, 200.0, now);
            var l1 := CreateZakatTransaction(l0, c, ZAKAT_FUND, now).ledger;
            var l2 := CreateTransferTransaction(l1, c, "2021-CS-007", 30.0, now).ledger;
            var r := MinePendingTransactions(p, l2, c, now, fuel);
            r.Some? ==>
              && |r.value.chain| == 2 && r.value.pending == []
              && GetBalance(r.value, c) == 170.0
              && GetBalance(r.value, "2021-CS-007") == 30.0
              && GetBalance(r.value, ZAKAT_FUND) == 0.0
  {
    var c, to := "2021-CS-006", "2021-CS-007";
    assert c[10] != to[10] && |c| != |ZAKAT_FUND| && |to| != |ZAKAT_FUND|;
    assert |c| != |SYSTEM| && |c| != |GENESIS_SENDER|;
    var l0 := NewLedger(p, c, 200.0, now);
    assert GetBalance(l0, c) == 200.0 && GetBalance(l0, to) == 0.0 && GetBalance(l0, ZAKAT_FUND) == 0.0;
    ZakatAndTransferThenMine(p, l0, c, to, 30.0, now, fuel);
  }

  /**
   One round of the balance-tracking test: a transfer followed by mining
   to the sender leaves it with `B - amount - B/40 + reward`, and the
   receiver with exactly `amount` more.
   */
  lemma TransferThenMine(p: Primitives, l: Ledger, from: string, to: string, amount: real, now: string, fuel: nat)
    requires |l.chain| > 0 && l.pending == []
    requires !IsIssuer(from) && from != to
    requires amount <= 0.975 * GetBalance(l, from)
    ensures var s := CreateTransferTransaction(l, from, to, amount, now);
            var r := MinePendingTransactions(p, s.ledger, from, now, fuel);
            && s.ok
            && (r.Some? ==>
                  && GetBalance(r.value, from) == GetBalance(l, from) - amount - GetBalance(l, from) / 40.0 + MINING_REWARD
                  && GetBalance(r.value, to) == GetBalance(l, to) + amount)
  {
    var s := CreateTransferTransaction(l, from, to, amount, now);
    var r := MinePendingTransactions(p, s.ledger, from, now, fuel);
    if r.Some? {
      var t := Transaction(from, to, amount, GetBalance(l, from) / 40.0, Transfer, now);
      var txs := [t, RewardTransaction(from, now)];
      assert s.ledger.pending + [RewardTransaction(from, now)] == txs;
      assert txs[1..] == [RewardTransaction(from, now)];
      assert txs[2..] == [];
      assert Credit(txs[2..], from) == 0.0 && Debit(txs[2..], from) == 0.0;
      assert Credit(txs[1..], from) == MINING_REWARD && Debit(txs[1..], from) == 0.0;
      assert Credit(txs, from) == MINING_REWARD;
      assert Debit(txs, from) == amount + GetBalance(l, from) / 40.0;
      assert Credit(txs[2..], to) == 0.0 && Debit(txs[2..], to) == 0.0;
      assert Credit(txs[1..], to) == 0.0 && Debit(txs[1..], to) == 0.0;
      assert Credit(txs, to) == amount && Debit(txs, to) == 0.0;
      MinedBalances(p, s.ledger, from, now, fuel, from);
      MinedBalances(p, s.ledger, from, now, fuel, to);
    }
  }

  /**
   A creator C1 holding 200 sends 50 to C2 and mines: C2 then holds 50,
   C1 holds 200 - 50 - 5 + 10, and the chain has two blocks and is valid.
   */
  lemma SendAndSealScenario(p: Primitives, now: string, fuel: nat)
    ensures var l0 := NewLedger(p, "C1", 200.0, now);
            var s := CreateTransferTransaction(l0, "C1", "C2", 50.0, now);
            var r := MinePendingTransactions(p, s.ledger, "C1", now, fuel);
            r.Some? ==>
              && GetBalance(r.value, "C2") == 50.0
              && GetBalance(r.value, "C1") == 155.0
              && |r.value.chain| == 2
              && ChainValid(p, r.value.chain)
  {
    var l0 := NewLedger(p, "C1", 200.0, now);
    NewLedgerWellFormed(p, "C1", 200.0, now);
    TransferThenMine(p, l0, "C1", "C2", 50.0, now, fuel);
    var s := CreateTransferTransaction(l0, "C1", "C2", 50.0, now);
    EnqueueWellFormed(p, l0, s.ledger.pending[0], "C1", "C2", 50.0, now);
    MineWellFormed(p, s.ledger, "C1", now, fuel);
  }

  /**
   Registering four more distinct nodes with 200, 150, 250 and 180 coins
   next to a creator holding 200: each is accepted, a second registration
   of an id is refused, and the registry has five nodes. The coins in the
   network total 980.
   */
  lemma FourRegistrations(l0: Ledger, c1: string, c2: string, c3: string, c4: string, c5: string, now: string)
    requires c1 != c2 && c1 != c3 && c1 != c4 && c1 != c5 && c2 != c3
    requires c2 != c4 && c2 != c5 && c3 != c4 && c3 != c5 && c4 != c5
    requires l0.nodes.Keys == {c1} && l0.balances == map[c1 := 200.0]
    ensures var s1 := AddNode(l0, c2, 200.0, now);
            var s2 := AddNode(s1.ledger, c3, 150.0, now);
            var s3 := AddNode(s2.ledger, c4, 250.0, now);
            var s4 := AddNode(s3.ledger, c5, 180.0, now);
            var dup := AddNode(s4.ledger, c2, 100.0, now);
            && s1.ok && s2.ok && s3.ok && s4.ok
            && !dup.ok && dup.ledger == s4.ledger
            && |s4.ledger.nodes| == 5
            && Total(s4.ledger.balances) == 980.0
  {
    var s1 := AddNode(l0, c2, 200.0, now);
    var s2 := AddNode(s1.ledger, c3, 150.0, now);
    var s3 := AddNode(s2.ledger, c4, 250.0, now);
    TotalUpdate(map[], c1, 200.0);
    assert map[][c1 := Get(map[], c1) + 200.0] == l0.balances;
    AddNodeTotal(l0, c2, 200.0, now);
    AddNodeTotal(s1.ledger, c3, 150.0, now);
    AddNodeTotal(s2.ledger, c4, 250.0, now);
    AddNodeTotal(s3.ledger, c5, 180.0, now);
  }

  /**
   The multi-node test's registrations on a fresh ledger: the network
   holds 980 coins, not the 5 x 200 its conservation check assumes.
   */
  lemma MultiNodeScenario(p: Primitives, now: string)
    ensures var l0 := NewLedger(p, "2021-CS-001", 200.0, now);
            var s1 := AddNode(l0, "2021-CS-002", 200.0, now);
            var s2 := AddNode(s1.ledger, "2021-CS-003", 150.0, now);
            var s3 := AddNode(s2.ledger, "2021-CS-004", 250.0, now);
            var s4 := AddNode(s3.ledger, "2021-CS-005", 180.0, now);
            var dup := AddNode(s4.ledger, "2021-CS-002", 100.0, now);
            s4.ok && !dup.ok && |s4.ledger.nodes| == 5 && Total(s4.ledger.balances) == 980.0
  {
    var c1, c2, c3, c4, c5 := "2021-CS-001", "2021-CS-002", "2021-CS-003", "2021-CS-004", "2021-CS-005";
    assert c1[10] == '1' && c2[10] == '2' && c3[10] == '3' && c4[10] == '4' && c5[10] == '5';
    FourRegistrations(NewLedger(p, c1, 200.0, now), c1, c2, c3, c4, c5, now);
  }

  /**
   Validation reserves nothing: two 90-coin transfers from an account
   holding 100 are both accepted (each is checked against 100), and once
   mined by someone else the sender's balance is negative.
   */
  lemma OverdraftScenario(p: Primitives, l: Ledger, a: string, b: string, miner: string, now: string, fuel: nat)
    requires |l.chain| > 0 && l.pending == []
    requires GetBalance(l, a) == 100.0 && !IsIssuer(a) && a != b && a != miner
    ensures var s1 := CreateTransferTransaction(l, a, b, 90.0, now);
            var s2 := CreateTransferTransaction(s1.ledger, a, b, 90.0, now);
            var r := MinePendingTransactions(p, s2.ledger, miner, now, fuel);
            && s1.ok && s2.ok
            && (r.Some? ==> GetBalance(r.value, a) == -85.0)
  {
    var s1 := CreateTransferTransaction(l, a, b, 90.0, now);
    var s2 := CreateTransferTransaction(s1.ledger, a, b, 90.0, now);
    var r := MinePendingTransactions(p, s2.ledger, miner, now, fuel);
    if r.Some? {
      var t := Transaction(a, b, 90.0, 2.5, Transfer, now);
      var txs := [t, t, RewardTransaction(miner, now)];
      assert s2.ledger.pending + [RewardTransaction(miner, now)] == txs;
      ThreeEntryFlows(t, t, RewardTransaction(miner, now), a);
      MinedBalances(p, s2.ledger, miner, now, fuel, a);
    }
  }

  /** A gift is taxed nothing: it is accepted whenever the balance covers the amount itself. */
  lemma GiftScenario(p: Primitives, l: Ledger, from: string, to: string, amount: real, now: string)
    requires 0.975 * GetBalance(l, from) < amount <= GetBalance(l, from)
    ensures !CreateTransferTransaction(l, from, to, amount, now).ok
    ensures CreateGiftTransaction(l, from, to, amount, now).ok
  {
  }

}
