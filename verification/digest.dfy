/**
 Hex digests, the proof-of-work target and the decimal rendering of integers
 that enter a block's hash input.

 SHA-256 itself is not modelled: `IsHexDigest` is the shape of a
 `hexdigest()` result, assumed of the hash parameter only where a
 statement needs it.
 */
module Digest {

  predicate IsLowerHex(c: char) {
    ('0' <= c <= '9') || ('a' <= c <= 'f')
  }

  /** The shape of a SHA-256 hex digest: 64 lowercase hexadecimal characters. */
  predicate IsHexDigest(s: string) {
    |s| == 64 && forall i :: 0 <= i < |s| ==> IsLowerHex(s[i])
  }

  /** `"0" * n` in Python. */
  function Zeros(n: nat): (z: string)
    ensures |z| == n
    ensures forall i :: 0 <= i < n ==> z[i] == '0'
  {
    seq(n, _ => '0')
  }

  /** `s[:n]` in Python: the whole string when it is shorter than `n`. */
  function Prefix(s: string, n: nat): string {
    if n <= |s| then s[..n] else s
  }

  /** The loop guard of `mine_block` negated: `hash[:difficulty] == "0" * difficulty`. */
  predicate MeetsTarget(h: string, difficulty: nat) {
    Prefix(h, difficulty) == Zeros(difficulty)
  }

  /** The target is met exactly when the first `difficulty` characters exist and are all zeros. */
  lemma MeetsTargetIff(h: string, difficulty: nat)
    ensures MeetsTarget(h, difficulty) <==>
              difficulty <= |h| && forall i :: 0 <= i < difficulty ==> h[i] == '0'
  {
  }

  function DigitChar(d: nat): (c: char)
    requires d < 10
    ensures '0' <= c <= '9'
  {
    ('0' as int + d) as char
  }

  /** `str(n)` / f-string rendering of a non-negative Python int. */
  function NatToString(n: nat): string
    decreases n
  {
    if n < 10 then [DigitChar(n)] else NatToString(n / 10) + [DigitChar(n % 10)]
  }

}
