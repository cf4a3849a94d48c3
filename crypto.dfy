/**
 * The foreign primitives the ledger relies on: SHA-256 over a string, the
 * canonical JSON serialization of transactions and blocks, and ECDSA key
 * pairs, signing and verification.  None of them is computed here; a node is
 * given one fixed `Primitives` value and every property that depends on
 * cryptography names the assumption it needs.
 */
module Crypto {
  import opened Types

  datatype Primitives = Primitives(
    /** SHA-256 as a lower-case hex string */
    hash: string -> string,
    /** json-stable-stringify of a transaction (absent keys are omitted) */
    stringifyTransaction: Transaction -> string,
    /** json-stable-stringify of a block */
    stringifyBlock: Block -> string,
    /** signWithPrivateKey(privateKey, digest) */
    sign: (string, string) -> string,
    /** verifyWithPublicKey(publicKey, digest, signature); the signature may be missing */
    verify: (string, string, Option<string>) -> bool,
    /** holds of the (public, private) pairs that generateKeyPair returns */
    matches: (string, string) -> bool)

  /** The one cryptographic assumption: a signature made with a private key verifies under its public key. */
  ghost predicate Sound(p: Primitives) {
    forall pub, priv, digest :: p.matches(pub, priv) ==> p.verify(pub, digest, Some(p.sign(priv, digest)))
  }

  /** SHA-256 digests are 64 hex characters long. */
  ghost predicate HexDigests(p: Primitives) {
    forall s :: |p.hash(s)| == 64
  }

  /** hash(stringify(block)): the hash of a block, over all its fields including the nonce */
  function BlockHash(p: Primitives, b: Block): string {
    p.hash(p.stringifyBlock(b))
  }

  /** hash(stringify(transaction)) */
  function TransactionDigest(p: Primitives, t: Transaction): string {
    p.hash(p.stringifyTransaction(t))
  }
}
