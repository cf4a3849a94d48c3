/**
 * The older node class (`Miner` in src/Blockchain.ts): the same chain and
 * pool as the current class, but no reward and no coinbase transaction.
 */
module LegacyMiner {
  import opened Types
  import opened Crypto
  import opened Work
  import opened Ledger

  /** createTransaction: unsigned and without any `coinbase` key. */
  function CreateTransaction(sender: string, recipient: string, amount: int, now: int): Transaction {
    Transaction(sender, recipient, amount, None, now, None)
  }

  /** A transfer this node creates from its own key and signs validates. */
  lemma CreatedAndSignedValidates(p: Primitives, publicKey: string, privateKey: string,
                                  recipient: string, amount: int, now: int)
    requires Sound(p) && p.matches(publicKey, privateKey)
    ensures var signed := SignTransaction(p, privateKey, CreateTransaction(publicKey, recipient, amount, now));
            && signed.sender == publicKey && signed.recipient == recipient
            && signed.amount == amount && signed.timestamp == now
            && signed.coinbase == None && signed.signature.Some?
            && ValidateTransaction(p, signed)
  {
  }

  class Miner {
    /** the hashing, serialization and signature functions the node uses */
    const prims: Primitives
    const publicKey: string
    const privateKey: string

    var chain: seq<Block>
    var pendingTransactions: seq<Transaction>
    var difficulty: nat

    /** The chain always holds at least its genesis block. */
    ghost predicate Valid()
      reads this
    {
      |chain| >= 1
    }

    /** Difficulty 4, an empty pool and the genesis block `createBlock([], undefined, 1337)`. */
    constructor (p: Primitives, pub: string, priv: string)
      requires p.matches(pub, priv)
      ensures Valid()
      ensures prims == p && publicKey == pub && privateKey == priv
      ensures chain == [Block([], None, 1337, 0, 4)]
      ensures pendingTransactions == []
      ensures difficulty == 4
      ensures ChainValid(prims, chain)
    {
      prims := p;
      publicKey, privateKey := pub, priv;
      chain := [];
      pendingTransactions := [];
      difficulty := 4;
      new;
      var genesisBlock := CreateBlock([], None, 1337);
      AddBlock(genesisBlock);
    }

    /** createBlock: a candidate with nonce 0 at the node's current difficulty. */
    function CreateBlock(transactions: seq<Transaction>, previousHash: Option<string>, timestamp: int): Block
      reads this
    {
      Block(transactions, previousHash, timestamp, 0, difficulty)
    }

    /** addTransaction: append to the pool, without any duplicate check. */
    method AddTransaction(t: Transaction)
      modifies this
      ensures pendingTransactions == old(pendingTransactions) + [t]
      ensures chain == old(chain) && difficulty == old(difficulty)
    {
      pendingTransactions := pendingTransactions + [t];
    }

    /**
     * addBlock: push the block onto the chain and keep only the pending
     * transactions whose signature the block does not carry.
     */
    method AddBlock(block: Block)
      modifies this
      ensures Valid()
      ensures chain == old(chain) + [block]
      ensures pendingTransactions == Unconfirmed(old(pendingTransactions), Signatures(block.transactions))
      ensures difficulty == old(difficulty)
    {
      chain := chain + [block];
      pendingTransactions := Unconfirmed(pendingTransactions, Signatures(block.transactions));
    }

    /** The candidate block `mine` hands to `proofOfWork`. */
    function Candidate(blockTime: int): Block
      requires Valid()
      reads this
    {
      var lastBlock := chain[|chain| - 1];
      CreateBlock(pendingTransactions, Some(BlockHash(prims, lastBlock)), blockTime)
    }

    /**
     * mine: a copy of the pool, linked to the last block, searched to a valid
     * nonce and appended; there is no coinbase.
     */
    method Mine(blockTime: int) returns (minedBlock: Block)
      requires Valid()
      requires Minable(prims, Candidate(blockTime))
      modifies this
      ensures Valid()
      ensures minedBlock.transactions == old(pendingTransactions)
      ensures minedBlock.previousHash == Some(BlockHash(prims, old(chain[|chain| - 1])))
      ensures minedBlock.timestamp == blockTime && minedBlock.difficulty == old(difficulty)
      ensures ValidateBlock(prims, minedBlock)
      ensures forall n: nat :: n < minedBlock.nonce ==> !ValidateBlock(prims, minedBlock.(nonce := n))
      ensures chain == old(chain) + [minedBlock]
      ensures pendingTransactions == []
      ensures difficulty == old(difficulty)
      ensures old(ChainValid(prims, chain)) ==> ChainValid(prims, chain)
    {
      var transactions := pendingTransactions;
      var lastBlock := chain[|chain| - 1];
      var previousHash := BlockHash(prims, lastBlock);
      var block := CreateBlock(transactions, Some(previousHash), blockTime);
      minedBlock := ProofOfWork(prims, block);
      assert minedBlock.transactions == transactions;
      ChainValidAppend(prims, chain, minedBlock);
      PoolClearedByBlock([], pendingTransactions);
      assert [] + pendingTransactions == pendingTransactions;
      AddBlock(minedBlock);
    }

    /**
     * isValid: scan from the last block down to index 1, failing at the first
     * block that is not valid or does not point at its predecessor's hash.
     */
    method IsValid() returns (ok: bool)
      ensures ok <==> ChainValid(prims, chain)
    {
      var index := |chain| - 1;
      while index > 0
        invariant index < |chain|
        invariant forall k :: 1 <= k && index < k < |chain| ==> LinkValid(prims, chain, k)
      {
        var block := chain[index];
        var previousBlock := chain[index - 1];
        var previousBlockHash := BlockHash(prims, previousBlock);
        if !(ValidateBlock(prims, block) && block.previousHash == Some(previousBlockHash)) {
          assert !LinkValid(prims, chain, index);
          return false;
        }
        index := index - 1;
      }
      return true;
    }
  }
}
