/**
 * The proof-of-work puzzle: the leading-zero test on a block's hash
 * (`validateBlock`) and the linear nonce search (`proofOfWork`).  The three
 * node classes carry identical copies of both.
 */
module Work {
  import opened Types
  import opened Crypto

  /** '0'.repeat(n) */
  function Zeros(n: nat): (z: string)
    ensures |z| == n
    ensures forall i :: 0 <= i < n ==> z[i] == '0'
  {
    seq(n, _ => '0')
  }

  /** `s` occurs in `h` starting at position `i`. */
  predicate OccursAt(h: string, s: string, i: nat) {
    i + |s| <= |h| && h[i..i + |s|] == s
  }

  /**
   * String.prototype.indexOf(s, from) for 0 <= from <= |h| (JavaScript clamps
   * a larger start to |h|): the first position at or after `from` where `s`
   * occurs in `h`, or -1 when there is none.
   */
  function IndexOfFrom(h: string, s: string, from: nat): (r: int)
    requires from <= |h|
    decreases |h| - from
    ensures r == -1 || (from <= r && OccursAt(h, s, r))
    ensures r == -1 ==> forall i: nat :: from <= i ==> !OccursAt(h, s, i)
    ensures r != -1 ==> forall i: nat :: from <= i < r ==> !OccursAt(h, s, i)
  {
    if from + |s| > |h| then -1
    else if h[from..from + |s|] == s then from
    else IndexOfFrom(h, s, from + 1)
  }

  /** h.indexOf(s) */
  function IndexOf(h: string, s: string): int {
    IndexOfFrom(h, s, 0)
  }

  /** `indexOf(s) === 0` is exactly "s is a prefix of h". */
  lemma IndexOfZeroIffPrefix(h: string, s: string)
    ensures IndexOf(h, s) == 0 <==> s <= h
  {
  }

  /** Reference definition: the first `d` characters of `h` exist and are all '0'. */
  predicate HasLeadingZeros(h: string, d: nat) {
    d <= |h| && forall i :: 0 <= i < d ==> h[i] == '0'
  }

  /**
   * validateBlock: the block's hash starts with `block.difficulty` zeros.  It
   * reads the difficulty stored in the block, not the node's current one.
   */
  function ValidateBlock(p: Primitives, block: Block): (ok: bool)
    ensures ok <==> HasLeadingZeros(BlockHash(p, block), block.difficulty)
    ensures block.difficulty == 0 ==> ok
    ensures block.difficulty > |BlockHash(p, block)| ==> !ok
  {
    var blockHash := BlockHash(p, block);
    var zeroString := Zeros(block.difficulty);
    IndexOfZeroIffPrefix(blockHash, zeroString);
    assert zeroString <= blockHash <==> HasLeadingZeros(blockHash, block.difficulty) by {
      if HasLeadingZeros(blockHash, block.difficulty) {
        assert blockHash[..block.difficulty] == zeroString;
      }
    }
    IndexOf(blockHash, zeroString) == 0
  }

  /** With 64-character digests no block of difficulty above 64 is ever valid, whatever its nonce. */
  lemma TooDifficultNeverValid(p: Primitives, block: Block, nonce: nat)
    requires HexDigests(p)
    requires block.difficulty > 64
    ensures !ValidateBlock(p, block.(nonce := nonce))
  {
  }

  /** Some nonce makes the block valid: the condition under which the search ends. */
  ghost predicate Minable(p: Primitives, block: Block) {
    exists n: nat :: ValidateBlock(p, block.(nonce := n))
  }

  /**
   * proofOfWork: reset the nonce to 0 and increment it until the block is
   * valid.  The result differs from the input only in its nonce, is valid,
   * and carries the least nonce that makes it valid.
   */
  method ProofOfWork(p: Primitives, block: Block) returns (mined: Block)
    requires Minable(p, block)
    ensures mined == block.(nonce := mined.nonce)
    ensures ValidateBlock(p, mined)
    ensures forall n: nat :: n < mined.nonce ==> !ValidateBlock(p, block.(nonce := n))
  {
    ghost var goal: nat :| ValidateBlock(p, block.(nonce := goal));
    mined := block.(nonce := 0);
    while !ValidateBlock(p, mined)
      invariant mined == block.(nonce := mined.nonce)
      invariant mined.nonce <= goal
      invariant forall n: nat :: n < mined.nonce ==> !ValidateBlock(p, block.(nonce := n))
      decreases goal - mined.nonce
    {
      mined := mined.(nonce := mined.nonce + 1);
    }
  }
}
