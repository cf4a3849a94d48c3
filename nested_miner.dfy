/**
 * The variant node class (`Miner` in src/Miner.ts): it keeps its chain
 * inside a nested current-style node, signs transactions as it creates them
 * and mines without a coinbase.
 */
module NestedMiner {
  import opened Types
  import opened Crypto
  import opened Work
  import opened Ledger
  import Blockchain

  /**
   * The transaction createTransaction returns: the data
   * `{sender, recipient, amount, timestamp}` signed with the given key.
   */
  function CreateTransaction(p: Primitives, privateKey: string,
                             sender: string, recipient: string, amount: int, now: int): Transaction
  {
    var transactionData := Transaction(sender, recipient, amount, None, now, None);
    var transactionHash := TransactionDigest(p, transactionData);
    var signature := p.sign(privateKey, transactionHash);
    transactionData.(signature := Some(signature))
  }

  /** A transaction the miner creates from its own key validates. */
  lemma CreatedValidates(p: Primitives, publicKey: string, privateKey: string,
                         recipient: string, amount: int, now: int)
    requires Sound(p) && p.matches(publicKey, privateKey)
    ensures var t := CreateTransaction(p, privateKey, publicKey, recipient, amount, now);
            && t.sender == publicKey && t.recipient == recipient
            && t.amount == amount && t.timestamp == now
            && t.coinbase == None && t.signature.Some?
            && ValidateTransaction(p, t)
  {
  }

  class Miner {
    /** the hashing, serialization and signature functions the node uses */
    const prims: Primitives
    const publicKey: string
    const privateKey: string

    /** the nested node whose chain this miner extends */
    const blockchain: Blockchain.Blockchain
    var pendingTransactions: seq<Transaction>
    var difficulty: nat

    ghost predicate Valid()
      reads this, blockchain
    {
      blockchain.Valid()
    }

    /**
     * A nested node (with its own key pair and its own genesis block), an
     * empty pool, difficulty 4, and a second genesis block created by this
     * miner at the current time and pushed onto the nested chain.
     */
    constructor (p: Primitives, chainPub: string, chainPriv: string, pub: string, priv: string, now: int)
      requires p.matches(chainPub, chainPriv) && p.matches(pub, priv)
      ensures Valid() && fresh(blockchain)
      ensures prims == p && publicKey == pub && privateKey == priv
      ensures blockchain.prims == p && blockchain.publicKey == chainPub
      ensures blockchain.chain == [Block([], None, 1337, 0, 4), Block([], None, now, 0, 4)]
      ensures blockchain.pendingTransactions == []
      ensures blockchain.difficulty == 4 && blockchain.reward == 10
      ensures pendingTransactions == []
      ensures difficulty == 4
    {
      blockchain := new Blockchain.Blockchain(p, chainPub, chainPriv);
      pendingTransactions := [];
      difficulty := 4;
      prims := p;
      publicKey, privateKey := pub, priv;
      new;
      var genesisBlock := CreateBlock([], None, now);
      AddBlock(genesisBlock);
    }

    /** createBlock: nonce 0 at the miner's difficulty, stamped with the clock reading `now`. */
    function CreateBlock(transactions: seq<Transaction>, previousHash: Option<string>, now: int): Block
      reads this
    {
      Block(transactions, previousHash, now, 0, difficulty)
    }

    /** addTransaction: append to the miner's own pool, without any duplicate check. */
    method AddTransaction(t: Transaction)
      modifies this
      ensures pendingTransactions == old(pendingTransactions) + [t]
      ensures difficulty == old(difficulty)
    {
      pendingTransactions := pendingTransactions + [t];
    }

    /**
     * addBlock: push onto the nested chain and filter the miner's own pool;
     * the nested node's pool, difficulty and reward are untouched.
     */
    method AddBlock(block: Block)
      modifies this, blockchain
      ensures Valid()
      ensures blockchain.chain == old(blockchain.chain) + [block]
      ensures blockchain.pendingTransactions == old(blockchain.pendingTransactions)
      ensures blockchain.difficulty == old(blockchain.difficulty) && blockchain.reward == old(blockchain.reward)
      ensures pendingTransactions == Unconfirmed(old(pendingTransactions), Signatures(block.transactions))
      ensures difficulty == old(difficulty)
    {
      blockchain.chain := blockchain.chain + [block];
      pendingTransactions := Unconfirmed(pendingTransactions, Signatures(block.transactions));
    }

    /**
     * mine: a copy of the miner's pool, searched to a valid nonce and pushed
     * onto the nested chain.  `lastBlockHash` stands for the hash of
     * `this.blockchain.lastBlock`, a property the nested node does not define.
     */
    method Mine(lastBlockHash: string, blockTime: int) returns (minedBlock: Block)
      requires Minable(prims, CreateBlock(pendingTransactions, Some(lastBlockHash), blockTime))
      modifies this, blockchain
      ensures Valid()
      ensures minedBlock.transactions == old(pendingTransactions)
      ensures minedBlock.previousHash == Some(lastBlockHash)
      ensures minedBlock.timestamp == blockTime && minedBlock.difficulty == old(difficulty)
      ensures ValidateBlock(prims, minedBlock)
      ensures forall n: nat :: n < minedBlock.nonce ==> !ValidateBlock(prims, minedBlock.(nonce := n))
      ensures blockchain.chain == old(blockchain.chain) + [minedBlock]
      ensures blockchain.pendingTransactions == old(blockchain.pendingTransactions)
      ensures blockchain.difficulty == old(blockchain.difficulty) && blockchain.reward == old(blockchain.reward)
      ensures pendingTransactions == []
      ensures difficulty == old(difficulty)
    {
      var transactions := pendingTransactions;
      var block := CreateBlock(transactions, Some(lastBlockHash), blockTime);
      minedBlock := ProofOfWork(prims, block);
      assert minedBlock.transactions == transactions;
      PoolClearedByBlock([], pendingTransactions);
      assert [] + pendingTransactions == pendingTransactions;
      AddBlock(minedBlock);
    }
  }
}
