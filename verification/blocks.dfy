/**
 Blocks (`Block` in blockchain.py): the hash input, hashing and the
 proof-of-work nonce search.
 */
module Blocks {
  import opened Wrappers
  import opened Digest
  import opened Transactions

  /**
   The two library routines hashing relies on, whose internals are not
   modelled: SHA-256 with its hex digest, and `str(tx.to_dict())`, the
   text each entry contributes to the hash input. `DigestShaped` states
   what `hexdigest()` guarantees of the former.
   */
  datatype Primitives = Primitives(sha256: string -> string, txRepr: Transaction -> string)

  ghost predicate DigestShaped(p: Primitives) {
    forall s :: IsHexDigest(p.sha256(s))
  }

  /** `roll_number` is the seed key that domain-separates the hash. */
  datatype Block = Block(
    index: nat,
    transactions: seq<Transaction>,
    previousHash: string,
    rollNumber: string,
    timestamp: string,
    nonce: nat,
    hash: string)

  /** The difficulty `mine_pending_transactions` uses (the default argument of `mine_block`). */
  const DIFFICULTY: nat := 2

  /** The concatenated reprs of a block's entries, in order. */
  function TransactionsString(p: Primitives, txs: seq<Transaction>): string {
    if |txs| == 0 then "" else p.txRepr(txs[0]) + TransactionsString(p, txs[1..])
  }

  /** The fields joined with a separator, as the f-string in `calculate_hash` lays them out. */
  function Join(fields: seq<string>, sep: string): string {
    if |fields| == 0 then ""
    else if |fields| == 1 then fields[0]
    else fields[0] + sep + Join(fields[1..], sep)
  }

  /** `seed:index:entries:previous_hash:timestamp:nonce`, the text that is hashed. */
  function BlockString(p: Primitives, b: Block): string {
    Join([b.rollNumber, NatToString(b.index), TransactionsString(p, b.transactions),
          b.previousHash, b.timestamp, NatToString(b.nonce)], ":")
  }

  /** Joining six fields puts the separator between neighbours only. */
  lemma JoinSix(f0: string, f1: string, f2: string, f3: string, f4: string, f5: string, sep: string)
    ensures Join([f0, f1, f2, f3, f4, f5], sep) == f0 + sep + f1 + sep + f2 + sep + f3 + sep + f4 + sep + f5
  {
    var f := [f0, f1, f2, f3, f4, f5];
    assert f[5..] == [f5];
    assert f[4..][1..] == f[5..];
    assert f[3..][1..] == f[4..];
    assert f[2..][1..] == f[3..];
    assert f[1..][1..] == f[2..];
    assert Join(f[4..], sep) == f4 + sep + f5;
    assert Join(f[3..], sep) == f3 + sep + (f4 + sep + f5);
    assert Join(f[2..], sep) == f2 + sep + (f3 + sep + (f4 + sep + f5));
    assert Join(f[1..], sep) == f1 + sep + (f2 + sep + (f3 + sep + (f4 + sep + f5)));
  }

  /**
   The hash input lays the six fields out in the f-string's order, each
   followed by one colon except the last.
   */
  lemma BlockStringLayout(p: Primitives, b: Block)
    ensures BlockString(p, b) == b.rollNumber + ":" + NatToString(b.index) + ":"
                                 + TransactionsString(p, b.transactions) + ":" + b.previousHash + ":"
                                 + b.timestamp + ":" + NatToString(b.nonce)
  {
    JoinSix(b.rollNumber, NatToString(b.index), TransactionsString(p, b.transactions),
            b.previousHash, b.timestamp, NatToString(b.nonce), ":");
  }

  /** `calculate_hash`: a hex digest of every field except the stored hash itself. */
  function CalculateHash(p: Primitives, b: Block): string {
    p.sha256(BlockString(p, b))
  }

  /** The hash the block would have with nonce `n`. */
  function HashAt(p: Primitives, b: Block, n: nat): string {
    CalculateHash(p, b.(nonce := n))
  }

  /** A block whose stored hash recomputes from its own fields. */
  predicate Sealed(p: Primitives, b: Block) {
    b.hash == CalculateHash(p, b)
  }

  lemma HashIgnoresStoredHash(p: Primitives, b: Block, stored: string)
    ensures CalculateHash(p, b.(hash := stored)) == CalculateHash(p, b)
  {
  }

  /** `Block(...)`: nonce 0 and the hash computed at construction time. */
  function NewBlock(p: Primitives, index: nat, txs: seq<Transaction>, previousHash: string,
                    seed: string, now: string): (b: Block)
    ensures b.index == index && b.transactions == txs && b.previousHash == previousHash
    ensures b.rollNumber == seed && b.timestamp == now && b.nonce == 0
    ensures Sealed(p, b)
  {
    var unsealed := Block(index, txs, previousHash, seed, now, 0, "");
    HashIgnoresStoredHash(p, unsealed, CalculateHash(p, unsealed));
    unsealed.(hash := CalculateHash(p, unsealed))
  }

  /**
   The nonce loop of `mine_block`: try nonces `from`, `from + 1`, ... and
   stop at the first whose hash meets the target. Python loops without
   bound; here at most `fuel` nonces are tried and `None` means the fuel ran
   out. Every nonce passed over missed the target.
   */
  function FindNonce(p: Primitives, b: Block, from: nat, difficulty: nat, fuel: nat): (r: Option<nat>)
    ensures r.Some? ==> from <= r.value < from + fuel
    ensures r.Some? ==> MeetsTarget(HashAt(p, b, r.value), difficulty)
    ensures r.Some? ==> forall n :: from <= n < r.value ==> !MeetsTarget(HashAt(p, b, n), difficulty)
    ensures r.None? ==> forall n :: from <= n < from + fuel ==> !MeetsTarget(HashAt(p, b, n), difficulty)
    decreases fuel
  {
    if fuel == 0 then None
    else if MeetsTarget(HashAt(p, b, from), difficulty) then Some(from)
    else FindNonce(p, b, from + 1, difficulty, fuel - 1)
  }

  /**
   `mine_block`: the stored hash is tested first; while it misses the
   target the nonce is bumped and the hash recomputed. On success only the
   nonce and hash differ, the hash meets the target and is the block's own
   hash (or, with no bump, the stored one), and every nonce passed over
   missed the target: the search is linear and returns the first hit.
   */
  function MineBlock(p: Primitives, b: Block, difficulty: nat, fuel: nat): (r: Option<Block>)
    ensures r.Some? ==> MeetsTarget(r.value.hash, difficulty)
    ensures r.Some? ==> r.value == b.(nonce := r.value.nonce, hash := r.value.hash)
    ensures r.Some? ==> b.nonce <= r.value.nonce <= b.nonce + fuel
    ensures r.Some? ==> r.value.hash == if r.value.nonce == b.nonce then b.hash else HashAt(p, b, r.value.nonce)
    ensures r.Some? && r.value.nonce > b.nonce ==> !MeetsTarget(b.hash, difficulty)
    ensures r.Some? ==> forall n :: b.nonce < n < r.value.nonce ==> !MeetsTarget(HashAt(p, b, n), difficulty)
    ensures r.None? ==> !MeetsTarget(b.hash, difficulty)
    ensures r.None? ==> forall n :: b.nonce < n <= b.nonce + fuel ==> !MeetsTarget(HashAt(p, b, n), difficulty)
  {
    if MeetsTarget(b.hash, difficulty) then Some(b)
    else
      match FindNonce(p, b, b.nonce + 1, difficulty, fuel)
      case None => None
      case Some(n) => Some(b.(nonce := n, hash := HashAt(p, b, n)))
  }

  /** Mining a sealed block yields a sealed block whose hash meets the target. */
  lemma MinedBlockSealed(p: Primitives, b: Block, difficulty: nat, fuel: nat)
    requires Sealed(p, b)
    ensures var r := MineBlock(p, b, difficulty, fuel);
            r.Some? ==> Sealed(p, r.value) && MeetsTarget(r.value.hash, difficulty)
                        && r.value.index == b.index && r.value.transactions == b.transactions
                        && r.value.previousHash == b.previousHash && r.value.rollNumber == b.rollNumber
  {
  }

  /**
   The difficulty property: a mined hash starts with `difficulty` zero
   characters, so with a 64-character digest the target fits inside it.
   */
  lemma MinedHashHasLeadingZeros(p: Primitives, b: Block, difficulty: nat, fuel: nat)
    requires DigestShaped(p) && Sealed(p, b)
    ensures var r := MineBlock(p, b, difficulty, fuel);
            r.Some? ==> difficulty <= 64 && forall i :: 0 <= i < difficulty ==> r.value.hash[i] == '0'
  {
  }

}
