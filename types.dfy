/**
 * The record shapes shared by every node class: transactions and blocks.
 * They are plain JavaScript objects in the repository; here they are values.
 */
module Types {

  datatype Option<+T> = None | Some(value: T)

  /**
   * A transfer between two addresses (public keys).  `coinbase` is a key that
   * only some constructors write (absent is not the same as false once the
   * object is serialized), and `signature` is absent until the transaction is signed.
   */
  datatype Transaction = Transaction(
    sender: string,
    recipient: string,
    amount: int,
    coinbase: Option<bool>,
    timestamp: int,
    signature: Option<string>)

  /**
   * A block as every `createBlock` builds it.  The `index` key declared by the
   * interface is never written by any constructor, so it is not a field here.
   */
  datatype Block = Block(
    transactions: seq<Transaction>,
    previousHash: Option<string>,
    timestamp: int,
    nonce: nat,
    difficulty: nat)
}
