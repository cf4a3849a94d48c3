/**
 * The mining scenario of the repository's node test, stated over the model:
 * one signed transfer of 5, difficulty lowered to 2, one `mine`.
 */
module Scenario {
  import opened Types
  import opened Crypto
  import opened Work
  import opened Ledger
  import Blockchain

  method MineOneTransfer(p: Primitives, pub: string, priv: string, recipient: string,
                         createdAt: int, coinbaseAt: int, minedAt: int)
    returns (newBlock: Block, chainValid: bool, poolSize: nat)
    requires p.matches(pub, priv)
    requires forall b: Block :: b.difficulty == 2 ==> Minable(p, b)
    ensures |newBlock.transactions| == 2
    ensures newBlock.transactions[0].coinbase == Some(true)
    ensures newBlock.transactions[1].coinbase == Some(false)
    ensures newBlock.transactions[1].amount == 5
    ensures ValidateBlock(p, newBlock)
    ensures poolSize == 0
    ensures chainValid
  {
    var miner := new Blockchain.Blockchain(p, pub, priv);
    var newTransaction := Blockchain.CreateTransaction(miner.publicKey, recipient, 5, false, createdAt);
    var signedTransaction := SignTransaction(miner.prims, miner.privateKey, newTransaction);
    miner.AddTransaction(signedTransaction);
    miner.difficulty := 2;
    assert miner.Candidate(coinbaseAt, minedAt).difficulty == 2;
    newBlock := miner.Mine(coinbaseAt, minedAt);
    assert newBlock.transactions[1..] == [signedTransaction];
    chainValid := miner.IsValid();
    poolSize := |miner.pendingTransactions|;
  }
}
