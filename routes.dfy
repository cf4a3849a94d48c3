/**
 * The checks the HTTP front end of the current node class applies before it
 * touches the node's state.  Transport, logging and broadcasting are not
 * modelled; only what is accepted and what the node becomes.
 */
module Routes {
  import opened Types
  import opened Crypto
  import opened Work
  import opened Ledger
  import Blockchain

  /** Some pending transaction already carries `t`'s signature. */
  predicate SignaturePending(pool: seq<Transaction>, t: Transaction) {
    exists u :: u in pool && u.signature == t.signature
  }

  /** Some block of the chain already carries `b`'s timestamp. */
  predicate TimestampInChain(chain: seq<Block>, b: Block) {
    exists c :: c in chain && c.timestamp == b.timestamp
  }

  /**
   * POST /transactions/new: a transfer from the node's own key, signed and
   * added to the pool.
   */
  method NewTransaction(node: Blockchain.Blockchain, recipient: string, amount: int, now: int)
    returns (signed: Transaction)
    modifies node
    ensures signed.sender == node.publicKey && signed.recipient == recipient && signed.amount == amount
    ensures signed.coinbase == Some(false) && signed.timestamp == now
    ensures signed == SignTransaction(node.prims, node.privateKey,
                                      Blockchain.CreateTransaction(node.publicKey, recipient, amount, false, now))
    ensures signed.signature.Some?
    ensures Sound(node.prims) && node.prims.matches(node.publicKey, node.privateKey) ==>
            ValidateTransaction(node.prims, signed)
    ensures node.pendingTransactions == old(node.pendingTransactions) + [signed]
    ensures node.chain == old(node.chain)
    ensures node.difficulty == old(node.difficulty) && node.reward == old(node.reward)
  {
    var newTransaction := Blockchain.CreateTransaction(node.publicKey, recipient, amount, false, now);
    signed := SignTransaction(node.prims, node.privateKey, newTransaction);
    if Sound(node.prims) && node.prims.matches(node.publicKey, node.privateKey) {
      SignThenValidate(node.prims, node.publicKey, node.privateKey, newTransaction);
    }
    node.AddTransaction(signed);
  }

  /**
   * POST /transactions: a received transaction joins the pool when it
   * validates and no pending transaction has its signature; otherwise
   * nothing changes.
   */
  method ReceiveTransaction(node: Blockchain.Blockchain, received: Transaction) returns (accepted: bool)
    modifies node
    ensures accepted <==> ValidateTransaction(node.prims, received) &&
                          !SignaturePending(old(node.pendingTransactions), received)
    ensures node.pendingTransactions ==
            if accepted then old(node.pendingTransactions) + [received] else old(node.pendingTransactions)
    ensures node.chain == old(node.chain)
    ensures node.difficulty == old(node.difficulty) && node.reward == old(node.reward)
  {
    var isValid := ValidateTransaction(node.prims, received);
    var isDuplicate := SignaturePending(node.pendingTransactions, received);
    accepted := isValid && !isDuplicate;
    if accepted {
      node.AddTransaction(received);
    }
  }

  /**
   * POST /blocks: a received block is appended when it passes proof-of-work
   * and no block of the chain has its timestamp; its link to the chain is
   * not checked.  Otherwise nothing changes.
   */
  method ReceiveBlock(node: Blockchain.Blockchain, received: Block) returns (accepted: bool)
    modifies node
    ensures accepted <==> ValidateBlock(node.prims, received) && !TimestampInChain(old(node.chain), received)
    ensures node.chain == if accepted then old(node.chain) + [received] else old(node.chain)
    ensures node.pendingTransactions ==
            if accepted then Unconfirmed(old(node.pendingTransactions), Signatures(received.transactions))
            else old(node.pendingTransactions)
    ensures node.difficulty == old(node.difficulty) && node.reward == old(node.reward)
  {
    var isValid := ValidateBlock(node.prims, received);
    var isDuplicate := TimestampInChain(node.chain, received);
    accepted := isValid && !isDuplicate;
    if accepted {
      node.AddBlock(received);
    }
  }

  /**
   * GET /mine: mine only when the pool is not empty; an empty pool is
   * answered with an error and changes nothing.
   */
  method MineRequest(node: Blockchain.Blockchain, txTime: int, blockTime: int) returns (forged: Option<Block>)
    requires node.Valid()
    requires node.pendingTransactions != [] ==> Minable(node.prims, node.Candidate(txTime, blockTime))
    modifies node
    ensures node.Valid()
    ensures forged.None? <==> old(node.pendingTransactions) == []
    ensures forged.None? ==> node.chain == old(node.chain) && node.pendingTransactions == old(node.pendingTransactions)
    ensures forged.Some? ==> node.chain == old(node.chain) + [forged.value] && node.pendingTransactions == []
    ensures forged.Some? ==>
              && forged.value.transactions == [old(node.Coinbase(txTime))] + old(node.pendingTransactions)
              && forged.value.previousHash == Some(BlockHash(node.prims, old(node.chain[|node.chain| - 1])))
              && forged.value.timestamp == blockTime && forged.value.difficulty == old(node.difficulty)
              && ValidateBlock(node.prims, forged.value)
              && (forall n: nat :: n < forged.value.nonce ==> !ValidateBlock(node.prims, forged.value.(nonce := n)))
    ensures old(ChainValid(node.prims, node.chain)) ==> ChainValid(node.prims, node.chain)
    ensures node.difficulty == old(node.difficulty) && node.reward == old(node.reward)
  {
    if |node.pendingTransactions| > 0 {
      var newBlock := node.Mine(txTime, blockTime);
      assert newBlock.transactions == [newBlock.transactions[0]] + newBlock.transactions[1..];
      forged := Some(newBlock);
    } else {
      forged := None;
    }
  }
}
