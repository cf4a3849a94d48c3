/**
 * The ledger logic the node classes share: signing and validating
 * transactions, the pool filtering of `addBlock`, and the chain-validity
 * condition that `isValid` scans for.
 */
module Ledger {
  import opened Types
  import opened Crypto
  import opened Work

  /**
   * signTransaction: sign the hash of the transaction as given and return it
   * with the signature set; every other field is unchanged.
   */
  function SignTransaction(p: Primitives, privateKey: string, t: Transaction): (signed: Transaction)
    ensures signed.(signature := t.signature) == t
    ensures signed.signature.Some?
  {
    var transactionHash := TransactionDigest(p, t);
    var signature := p.sign(privateKey, transactionHash);
    t.(signature := Some(signature))
  }

  /**
   * validateTransaction: verify the signature against the sender's public key
   * over the hash of the transaction without its signature key.
   */
  function ValidateTransaction(p: Primitives, t: Transaction): bool {
    var transactionData := t.(signature := None);
    p.verify(t.sender, TransactionDigest(p, transactionData), t.signature)
  }

  /**
   * Signing an unsigned transaction whose sender is the signer's public key
   * yields a transaction that validates.
   */
  lemma SignThenValidate(p: Primitives, publicKey: string, privateKey: string, t: Transaction)
    requires Sound(p) && p.matches(publicKey, privateKey)
    requires t.sender == publicKey && t.signature == None
    ensures ValidateTransaction(p, SignTransaction(p, privateKey, t))
  {
  }

  /** block.transactions.map(t => t.signature) */
  function Signatures(transactions: seq<Transaction>): (sigs: seq<Option<string>>)
    ensures |sigs| == |transactions|
    ensures forall i :: 0 <= i < |transactions| ==> sigs[i] == transactions[i].signature
  {
    seq(|transactions|, i requires 0 <= i < |transactions| => transactions[i].signature)
  }

  lemma SignatureIncluded(transactions: seq<Transaction>, t: Transaction)
    requires t in transactions
    ensures t.signature in Signatures(transactions)
  {
  }

  /**
   * The pool as `addBlock` leaves it: the pending transactions whose
   * signature is not among `included`, in their original order.
   */
  function Unconfirmed(pool: seq<Transaction>, included: seq<Option<string>>): (r: seq<Transaction>)
    ensures forall t :: t in r <==> t in pool && t.signature !in included
    ensures |r| <= |pool|
  {
    if pool == [] then []
    else (if pool[0].signature in included then [] else [pool[0]]) + Unconfirmed(pool[1..], included)
  }

  /** Filtering distributes over concatenation: the survivors keep their relative order. */
  lemma {:induction false} UnconfirmedAppend(a: seq<Transaction>, b: seq<Transaction>, included: seq<Option<string>>)
    ensures Unconfirmed(a + b, included) == Unconfirmed(a, included) + Unconfirmed(b, included)
  {
    if a != [] {
      assert (a + b)[1..] == a[1..] + b;
      UnconfirmedAppend(a[1..], b, included);
    } else {
      assert a + b == b;
    }
  }

  /** Every surviving transaction survives with its multiplicity; every removed one is gone entirely. */
  lemma {:induction false} UnconfirmedCount(pool: seq<Transaction>, included: seq<Option<string>>, t: Transaction)
    ensures multiset(Unconfirmed(pool, included))[t] ==
            if t.signature in included then 0 else multiset(pool)[t]
  {
    if pool != [] {
      UnconfirmedCount(pool[1..], included, t);
      assert pool == [pool[0]] + pool[1..];
    }
  }

  /** A pool none of whose signatures is included is left exactly as it was. */
  lemma {:induction false} UnconfirmedKeepsAll(pool: seq<Transaction>, included: seq<Option<string>>)
    requires forall t :: t in pool ==> t.signature !in included
    ensures Unconfirmed(pool, included) == pool
  {
    if pool != [] {
      UnconfirmedKeepsAll(pool[1..], included);
      assert pool == [pool[0]] + pool[1..];
    }
  }

  /** A pool all of whose signatures are included is emptied. */
  lemma UnconfirmedDropsAll(pool: seq<Transaction>, included: seq<Option<string>>)
    requires forall t :: t in pool ==> t.signature in included
    ensures Unconfirmed(pool, included) == []
  {
  }

  /** Filtering twice by the same block is filtering once. */
  lemma UnconfirmedIdempotent(pool: seq<Transaction>, included: seq<Option<string>>)
    ensures Unconfirmed(Unconfirmed(pool, included), included) == Unconfirmed(pool, included)
  {
    UnconfirmedKeepsAll(Unconfirmed(pool, included), included);
  }

  /** A block that carries the whole pool (after any prefix) clears the pool. */
  lemma PoolClearedByBlock(prefix: seq<Transaction>, pool: seq<Transaction>)
    ensures Unconfirmed(pool, Signatures(prefix + pool)) == []
  {
    forall t | t in pool ensures t.signature in Signatures(prefix + pool) {
      SignatureIncluded(prefix + pool, t);
    }
    UnconfirmedDropsAll(pool, Signatures(prefix + pool));
  }

  /** Block `k` passes proof-of-work and points at the hash of block `k - 1`. */
  predicate LinkValid(p: Primitives, chain: seq<Block>, k: int)
    requires 1 <= k < |chain|
  {
    ValidateBlock(p, chain[k]) && chain[k].previousHash == Some(BlockHash(p, chain[k - 1]))
  }

  /** The condition `isValid` checks: every block after genesis is linked and valid. Genesis is exempt. */
  predicate ChainValid(p: Primitives, chain: seq<Block>) {
    forall k :: 1 <= k < |chain| ==> LinkValid(p, chain, k)
  }

  /** Appending a block keeps a chain valid exactly when the block is valid and points at the old last block. */
  lemma ChainValidAppend(p: Primitives, chain: seq<Block>, block: Block)
    requires |chain| >= 1
    ensures ChainValid(p, chain + [block]) <==>
            ChainValid(p, chain) && ValidateBlock(p, block) &&
            block.previousHash == Some(BlockHash(p, chain[|chain| - 1]))
  {
    var longer := chain + [block];
    assert forall k :: 1 <= k < |chain| ==> (LinkValid(p, longer, k) <==> LinkValid(p, chain, k)) by {
      forall k | 1 <= k < |chain| ensures LinkValid(p, longer, k) <==> LinkValid(p, chain, k) {
        assert longer[k] == chain[k] && longer[k - 1] == chain[k - 1];
      }
    }
    assert LinkValid(p, longer, |chain|) <==>
           ValidateBlock(p, block) && block.previousHash == Some(BlockHash(p, chain[|chain| - 1]));
  }

  /** Every prefix of a valid chain is valid. */
  lemma ChainValidPrefix(p: Primitives, chain: seq<Block>, n: nat)
    requires ChainValid(p, chain) && n <= |chain|
    ensures ChainValid(p, chain[..n])
  {
    forall k | 1 <= k < n ensures LinkValid(p, chain[..n], k) {
      assert LinkValid(p, chain, k);
    }
  }

  /**
   * Replacing block `k >= 1` of a valid chain by one with a different
   * `previousHash` invalidates every prefix that still contains it.
   */
  lemma TamperedLinkBreaksChain(p: Primitives, chain: seq<Block>, k: nat, forged: Block, n: nat)
    requires ChainValid(p, chain)
    requires 1 <= k < n <= |chain|
    requires forged.previousHash != chain[k].previousHash
    ensures !ChainValid(p, chain[k := forged][..n])
  {
    assert LinkValid(p, chain, k);
    assert !LinkValid(p, chain[k := forged][..n], k);
  }
}
