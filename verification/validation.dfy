/**
 Chain validation (`validate_chain`): which chains it accepts, that mining
 keeps a chain valid, and that overwriting a stored hash is detected.
 */
module Validation {
  import opened Digest
  import opened Blocks

  /** Block `i` recomputes to its stored hash and points at its predecessor's stored hash. */
  predicate Linked(p: Primitives, chain: seq<Block>, i: nat)
    requires 1 <= i < |chain|
  {
    chain[i].hash == CalculateHash(p, chain[i]) && chain[i].previousHash == chain[i - 1].hash
  }

  /** Every block after the genesis block is linked; block 0 itself is never checked. */
  predicate ChainValid(p: Primitives, chain: seq<Block>) {
    forall i :: 1 <= i < |chain| ==> Linked(p, chain, i)
  }

  /** `validate_chain`: scans from block 1 and answers false at the first broken block. */
  method ValidateChain(p: Primitives, chain: seq<Block>) returns (valid: bool)
    ensures valid <==> ChainValid(p, chain)
  {
    var i := 1;
    while i < |chain|
      invariant 1 <= i
      invariant forall k :: 1 <= k < i && k < |chain| ==> Linked(p, chain, k)
    {
      var current := chain[i];
      var previous := chain[i - 1];
      if current.hash != CalculateHash(p, current) {
        assert !Linked(p, chain, i);
        return false;
      }
      if current.previousHash != previous.hash {
        assert !Linked(p, chain, i);
        return false;
      }
      i := i + 1;
    }
    return true;
  }

  /** Appending a sealed block that points at the current head keeps the chain valid. */
  lemma ChainValidAppend(p: Primitives, chain: seq<Block>, b: Block)
    requires |chain| > 0 && ChainValid(p, chain)
    requires Sealed(p, b) && b.previousHash == chain[|chain| - 1].hash
    ensures ChainValid(p, chain + [b])
  {
    var c := chain + [b];
    forall i | 1 <= i < |c|
      ensures Linked(p, c, i)
    {
      if i < |chain| {
        assert c[i] == chain[i] && c[i - 1] == chain[i - 1];
        assert Linked(p, chain, i);
      } else {
        assert c[i] == b && c[i - 1] == chain[|chain| - 1];
      }
    }
  }

  /** The chain with block `i`'s stored hash overwritten. */
  function Tamper(chain: seq<Block>, i: nat, h: string): (t: seq<Block>)
    requires i < |chain|
    ensures |t| == |chain| && t[i].hash == h
    ensures t[i] == chain[i].(hash := h)
    ensures forall k :: 0 <= k < |chain| && k != i ==> t[k] == chain[k]
  {
    chain[i := chain[i].(hash := h)]
  }

  /**
   Overwriting a non-genesis block's hash with anything other than its
   recomputed hash makes the chain invalid; writing the original value back
   restores validity.
   */
  lemma TamperDetected(p: Primitives, chain: seq<Block>, i: nat, h: string)
    requires 1 <= i < |chain|
    requires h != CalculateHash(p, chain[i])
    ensures !ChainValid(p, Tamper(chain, i, h))
    ensures Tamper(Tamper(chain, i, h), i, chain[i].hash) == chain
  {
    var t := Tamper(chain, i, h);
    HashIgnoresStoredHash(p, chain[i], h);
    assert !Linked(p, t, i);
  }

  /**
   The tampering in the ledger's tests: a string that is not a hex digest
   can never be a recomputed hash, so writing it over block 1's hash of a
   valid chain is detected, and writing the original back passes again.
   */
  lemma TamperWithNonDigest(p: Primitives, chain: seq<Block>, h: string)
    requires DigestShaped(p) && 2 <= |chain| && ChainValid(p, chain)
    requires !IsHexDigest(h)
    ensures !ChainValid(p, Tamper(chain, 1, h))
    ensures ChainValid(p, Tamper(Tamper(chain, 1, h), 1, chain[1].hash))
  {
    assert IsHexDigest(p.sha256(BlockString(p, chain[1])));
    TamperDetected(p, chain, 1, h);
  }

  /** The two strings the tests write over block 1's hash are not digests. */
  lemma TestTamperStringsAreNotDigests()
    ensures !IsHexDigest("tampered_hash") && !IsHexDigest("tampered_hash_12345")
  {
  }

  /**
   The genesis block's contents are never checked: any change to them that
   keeps its stored hash leaves the verdict unchanged.
   */
  lemma GenesisUnchecked(p: Primitives, chain: seq<Block>, g: Block)
    requires |chain| > 0 && g.hash == chain[0].hash
    ensures ChainValid(p, chain[0 := g]) <==> ChainValid(p, chain)
  {
    var c := chain[0 := g];
    if ChainValid(p, chain) {
      forall i | 1 <= i < |c| ensures Linked(p, c, i) {
        assert c[i] == chain[i] || i == 1;
        assert Linked(p, chain, i);
      }
    }
    if ChainValid(p, c) {
      forall i | 1 <= i < |chain| ensures Linked(p, chain, i) {
        assert c[i] == chain[i];
        assert Linked(p, c, i);
      }
    }
  }

}
