/**
 * The current node class: a chain, a pool of pending transactions, a mining
 * difficulty and a coinbase reward paid to the node's own key.
 */
module Blockchain {
  import opened Types
  import opened Crypto
  import opened Work
  import opened Ledger

  /** createTransaction: unsigned, with the `coinbase` key always written. */
  function CreateTransaction(sender: string, recipient: string, amount: int, coinbase: bool, now: int): Transaction {
    Transaction(sender, recipient, amount, Some(coinbase), now, None)
  }

  /** The coinbase reward a node with this key signs: from and to its own key. */
  lemma CoinbaseValidates(p: Primitives, publicKey: string, privateKey: string, reward: int, now: int)
    requires Sound(p) && p.matches(publicKey, privateKey)
    ensures var coinbase := SignTransaction(p, privateKey, CreateTransaction(publicKey, publicKey, reward, true, now));
            && coinbase.sender == publicKey && coinbase.recipient == publicKey
            && coinbase.amount == reward && coinbase.coinbase == Some(true)
            && coinbase.signature.Some?
            && ValidateTransaction(p, coinbase)
  {
  }

  class Blockchain {
    /** the hashing, serialization and signature functions the node uses */
    const prims: Primitives
    const publicKey: string
    const privateKey: string

    var chain: seq<Block>
    var pendingTransactions: seq<Transaction>
    var difficulty: nat
    var reward: int

    /** The chain always holds at least its genesis block. */
    ghost predicate Valid()
      reads this
    {
      |chain| >= 1
    }

    /**
     * A node with a fresh key pair (the pair generateKeyPair would return),
     * difficulty 4, reward 10 and only its genesis block, created by
     * `createBlock([], undefined, 1337)` and added by `addBlock`.
     */
    constructor (p: Primitives, pub: string, priv: string)
      requires p.matches(pub, priv)
      ensures Valid()
      ensures prims == p && publicKey == pub && privateKey == priv
      ensures prims.matches(publicKey, privateKey)
      ensures chain == [Block([], None, 1337, 0, 4)]
      ensures pendingTransactions == []
      ensures difficulty == 4 && reward == 10
      ensures ChainValid(prims, chain)
    {
      prims := p;
      publicKey, privateKey := pub, priv;
      chain := [];
      pendingTransactions := [];
      difficulty := 4;
      reward := 10;
      new;
      var genesisBlock := CreateBlock([], None, 1337);
      AddBlock(genesisBlock);
    }

    /** createBlock: a candidate with nonce 0 at the node's current difficulty. */
    function CreateBlock(transactions: seq<Transaction>, previousHash: Option<string>, timestamp: int): Block
      reads this
    {
      Block(transactions, previousHash, timestamp, 0, difficulty)
    }

    /** addTransaction: append to the pool, without any duplicate check. */
    method AddTransaction(t: Transaction)
      modifies this
      ensures pendingTransactions == old(pendingTransactions) + [t]
      ensures chain == old(chain) && difficulty == old(difficulty) && reward == old(reward)
    {
      pendingTransactions := pendingTransactions + [t];
    }

    /**
     * addBlock: push the block onto the chain and keep only the pending
     * transactions whose signature the block does not carry.
     */
    method AddBlock(block: Block)
      modifies this
      ensures Valid()
      ensures chain == old(chain) + [block]
      ensures pendingTransactions == Unconfirmed(old(pendingTransactions), Signatures(block.transactions))
      ensures difficulty == old(difficulty) && reward == old(reward)
    {
      chain := chain + [block];
      pendingTransactions := Unconfirmed(pendingTransactions, Signatures(block.transactions));
    }

    /** The coinbase `mine` creates when the clock reads `txTime`. */
    function Coinbase(txTime: int): Transaction
      reads this
    {
      SignTransaction(prims, privateKey, CreateTransaction(publicKey, publicKey, reward, true, txTime))
    }

    /** The candidate block `mine` hands to `proofOfWork`. */
    function Candidate(txTime: int, blockTime: int): Block
      requires Valid()
      reads this
    {
      var lastBlock := chain[|chain| - 1];
      CreateBlock([Coinbase(txTime)] + pendingTransactions, Some(BlockHash(prims, lastBlock)), blockTime)
    }

    /**
     * mine: a signed coinbase paying the reward to this node, then every
     * pending transaction in order, linked to the last block, searched to a
     * valid nonce and appended.  The two clock readings are parameters.
     */
    method Mine(txTime: int, blockTime: int) returns (minedBlock: Block)
      requires Valid()
      requires Minable(prims, Candidate(txTime, blockTime))
      modifies this
      ensures Valid()
      ensures |minedBlock.transactions| == |old(pendingTransactions)| + 1
      ensures minedBlock.transactions[0] == old(Coinbase(txTime))
      ensures var coinbase := minedBlock.transactions[0];
              && coinbase.sender == publicKey && coinbase.recipient == publicKey
              && coinbase.amount == old(reward) && coinbase.coinbase == Some(true)
              && coinbase.timestamp == txTime && coinbase.signature.Some?
      ensures Sound(prims) && prims.matches(publicKey, privateKey) ==>
              ValidateTransaction(prims, minedBlock.transactions[0])
      ensures minedBlock.transactions[1..] == old(pendingTransactions)
      ensures minedBlock.previousHash == Some(BlockHash(prims, old(chain[|chain| - 1])))
      ensures minedBlock.timestamp == blockTime && minedBlock.difficulty == old(difficulty)
      ensures ValidateBlock(prims, minedBlock)
      ensures forall n: nat :: n < minedBlock.nonce ==> !ValidateBlock(prims, minedBlock.(nonce := n))
      ensures chain == old(chain) + [minedBlock]
      ensures pendingTransactions == []
      ensures difficulty == old(difficulty) && reward == old(reward)
      ensures old(ChainValid(prims, chain)) ==> ChainValid(prims, chain)
    {
      var coinbaseTransaction := SignTransaction(prims, privateKey, CreateTransaction(publicKey, publicKey, reward, true, txTime));
      var transactions := [coinbaseTransaction] + pendingTransactions;
      var lastBlock := chain[|chain| - 1];
      var previousHash := BlockHash(prims, lastBlock);
      var block := CreateBlock(transactions, Some(previousHash), blockTime);
      minedBlock := ProofOfWork(prims, block);
      assert minedBlock.transactions == transactions;
      ChainValidAppend(prims, chain, minedBlock);
      PoolClearedByBlock([coinbaseTransaction], pendingTransactions);
      if Sound(prims) && prims.matches(publicKey, privateKey) {
        CoinbaseValidates(prims, publicKey, privateKey, reward, txTime);
      }
      AddBlock(minedBlock);
    }

    /**
     * isValid: scan from the last block down to index 1, failing at the first
     * block that is not valid or does not point at its predecessor's hash.
     */
    method IsValid() returns (ok: bool)
      ensures ok <==> ChainValid(prims, chain)
    {
      var index := |chain| - 1;
      while index > 0
        invariant index < |chain|
        invariant forall k :: 1 <= k && index < k < |chain| ==> LinkValid(prims, chain, k)
      {
        var block := chain[index];
        var previousBlock := chain[index - 1];
        var previousBlockHash := BlockHash(prims, previousBlock);
        if !(ValidateBlock(prims, block) && block.previousHash == Some(previousBlockHash)) {
          assert !LinkValid(prims, chain, index);
          return false;
        }
        index := index - 1;
      }
      return true;
    }
  }
}
