# A verified model of a small proof-of-work ledger node

The repository is a TypeScript blockchain node. It holds a `chain` of blocks and a
pool of `pendingTransactions`. It creates and signs transfers and checks their
signatures. It mines blocks by searching for a nonce that gives the block's
SHA-256 hash a prefix of `difficulty` '0' characters. It appends blocks,
dropping from the pool every transaction a block carries, and it checks a whole
chain: every block after genesis must pass proof-of-work and point at the hash
of its predecessor.

The repository has three versions of the node class. This model covers all three:

- `src/blockchain/Blockchain.ts`, class `Blockchain`: the current node, which pays
  itself a signed coinbase reward in every mined block. Modelled in module
  `Blockchain` (`blockchain.dfy`).
- `src/Blockchain.ts`, class `Miner`: the older node, with no reward and no
  coinbase. Modelled in module `LegacyMiner` (`legacy_miner.dfy`).
- `src/Miner.ts`, class `Miner`: a variant that signs transactions when it creates
  them and pushes its blocks onto the chain of a nested `Blockchain` node.
  Modelled in module `NestedMiner` (`nested_miner.dfy`).

Code that is literally the same in the classes that have it is defined once:

- `signTransaction` (a separate method in two classes; src/Miner.ts signs inside
  its `createTransaction`), `validateTransaction` and the pool filter of
  `addBlock` are in module `Ledger` (`ledger.dfy`), with the chain condition that
  `isValid` (present in two classes) checks.
- `validateBlock` (with `String.prototype.indexOf` and `'0'.repeat`) and the nonce
  search `proofOfWork` are in module `Work` (`work.dfy`).
- Each class module holds the state: a Dafny `class` whose `chain`,
  `pendingTransactions` and `difficulty` fields its methods update. Each class has
  its constructor (genesis), `createBlock`, `addTransaction`, `addBlock`, `mine`
  and, where the source has one, `isValid`.

`Types` (`types.dfy`) holds the transaction and block records. `Crypto`
(`crypto.dfy`) holds the foreign primitives as one record of functions, which
every node is given. These primitives are SHA-256, `json-stable-stringify`, and
ECDSA signing, verification and key-pair matching. They are never computed.
`Sound(p)` is the one cryptographic assumption: a signature made with a private
key verifies under the matching public key. Every property that needs it takes
it as a hypothesis. `HexDigests(p)` says that digests are 64 characters long.
`Routes` (`routes.dfy`) models what the HTTP front end in `src/miner.ts` checks
before it changes a node. `Scenario` (`scenario.dfy`) restates the repository's
mining test over the model.

Some functions only build a record or compute one expression, so they have no
row of their own: the `CreateTransaction` and `CreateBlock` of each class,
`Ledger.ValidateTransaction`, and the `Coinbase` and `Candidate` of the `mine`
methods. The rows of the lemmas and methods that use them state what they build.
For example, the constructor rows state the genesis block `createBlock` makes,
and the `Mine` rows state that its nonce search starts from nonce 0 at the
node's difficulty and passes transactions, `previousHash` and timestamp through.

Clock readings (`Date.now()`) are parameters of the operations that read the
clock. The key pair that `generateKeyPair` returns is a constructor parameter
that must satisfy `matches`.

Where the repository's test and its code disagree, the model follows the code.
The test expects the current node's genesis block to have timestamp 0 and nonce
1337. The code builds it with timestamp 1337 and nonce 0.

## Model

| member | source | states |
|---|---|---|
| `Work.Zeros` | src/blockchain/Blockchain.ts:114 | `'0'.repeat(n)` is n characters, all '0' |
| `Work.IndexOfFrom` | src/blockchain/Blockchain.ts:116 | for a start position within the string, `indexOf` returns -1 exactly when there is no occurrence at or after it; otherwise it returns an occurrence with no earlier one |
| `Work.IndexOfZeroIffPrefix` | src/blockchain/Blockchain.ts:114-116 | `indexOf(s) === 0` holds exactly when s is a prefix of the string |
| `Work.ValidateBlock` | src/blockchain/Blockchain.ts:111-117 | true exactly when the block's hash has at least `block.difficulty` leading '0' characters; it uses the block's own difficulty, so difficulty 0 always passes and a difficulty longer than the hash never does (the same code is at src/Blockchain.ts:107-113 and src/Miner.ts:102-108) |
| `Work.TooDifficultNeverValid` | test/Crypto.test.ts:18-22 | with 64-character digests, no nonce makes a block of difficulty above 64 valid, so the nonce search cannot end |
| `Work.ProofOfWork` | src/blockchain/Blockchain.ts:144-153 | the result differs from the input block only in its nonce, passes `validateBlock`, and carries the least nonce >= 0 that does (the same code is at src/Blockchain.ts:134-143 and src/Miner.ts:129-138) |
| `Ledger.SignTransaction` | src/blockchain/Blockchain.ts:64-70 | the signed transaction equals its input except for the signature, which is now present (the same code is at src/Blockchain.ts:60-66) |
| `Ledger.SignThenValidate` | src/blockchain/Blockchain.ts:64-81 | under the sign/verify assumption, signing an unsigned transaction whose sender is the signer's public key gives a transaction that `validateTransaction` accepts; the digest is over the transaction without its signature (the same code is at src/Blockchain.ts:60-77 and src/Miner.ts:67-74) |
| `Ledger.Signatures` | src/blockchain/Blockchain.ts:160-161 | `block.transactions.map(t => t.signature)`: one entry per transaction, in order |
| `Ledger.SignatureIncluded` | src/blockchain/Blockchain.ts:160-162 | the signature of every transaction a block carries is among the block's signatures |
| `Ledger.Unconfirmed` | src/blockchain/Blockchain.ts:159-163 | the filtered pool holds exactly the pending transactions whose signature is not among the block's signatures |
| `Ledger.UnconfirmedAppend` | src/blockchain/Blockchain.ts:159-163 | filtering distributes over concatenation: survivors keep their original relative order |
| `Ledger.UnconfirmedCount` | src/blockchain/Blockchain.ts:159-163 | a surviving transaction keeps its multiplicity; a removed one disappears entirely |
| `Ledger.UnconfirmedKeepsAll` | src/blockchain/Blockchain.ts:156-164 | a block carrying none of the pending signatures leaves the pool exactly as it was |
| `Ledger.UnconfirmedDropsAll` | src/blockchain/Blockchain.ts:156-164 | a block carrying every pending signature empties the pool |
| `Ledger.UnconfirmedIdempotent` | src/blockchain/Blockchain.ts:159-163 | adding the same block's filter twice removes nothing more |
| `Ledger.PoolClearedByBlock` | src/blockchain/Blockchain.ts:129-136 | a mined block that carries the whole pool after its coinbase clears the pool when it is added |
| `Ledger.ChainValidAppend` | src/blockchain/Blockchain.ts:177-190 | appending a block to a non-empty chain keeps it valid exactly when the block passes proof-of-work and its `previousHash` is the hash of the old last block |
| `Ledger.ChainValidPrefix` | src/blockchain/Blockchain.ts:177-190 | every prefix of a valid chain is valid |
| `Ledger.TamperedLinkBreaksChain` | src/blockchain/Blockchain.ts:177-190 | changing the `previousHash` of any block after genesis in a valid chain makes every prefix that contains that block invalid |
| `Blockchain.CoinbaseValidates` | src/blockchain/Blockchain.ts:125-128 | the coinbase goes from the node's key to the node's key with the reward as its amount and `coinbase` true; it is signed, and under the sign/verify assumption it validates |
| `Blockchain.Blockchain.constructor` | src/blockchain/Blockchain.ts:28-48 | the chain is exactly the genesis block (no transactions, no `previousHash`, timestamp 1337, nonce 0, difficulty 4); the pool is empty; reward is 10 and difficulty 4; the chain is valid |
| `Blockchain.Blockchain.AddTransaction` | src/blockchain/Blockchain.ts:84-87 | the transaction is appended to the pool with no duplicate check; nothing else changes |
| `Blockchain.Blockchain.AddBlock` | src/blockchain/Blockchain.ts:156-164 | the chain grows by exactly this block at the end; the pool becomes `Unconfirmed` of the old pool by the block's signatures; difficulty and reward are unchanged |
| `Blockchain.Blockchain.Mine` | src/blockchain/Blockchain.ts:123-139 | the block's first transaction is the signed coinbase (node key to node key, amount the reward, `coinbase` true), which validates under the sign/verify assumption; the old pool follows in order; `previousHash` is the hash of the old last block; the block passes `validateBlock` with the least such nonce; the chain grows by that block; the pool is empty; a valid chain stays valid |
| `Blockchain.Blockchain.IsValid` | src/blockchain/Blockchain.ts:177-190 | the backward scan returns true exactly when every block at index >= 1 passes `validateBlock` and points at the hash of the block before it; genesis is never checked |
| `LegacyMiner.CreatedAndSignedValidates` | src/Blockchain.ts:52-77 | a created transaction has no `coinbase` key and no signature until it is signed; once signed with the node's key it keeps its data and, under the sign/verify assumption, validates |
| `LegacyMiner.Miner.constructor` | src/Blockchain.ts:27-44 | one genesis block (no transactions, no `previousHash`, timestamp 1337, nonce 0, difficulty 4), an empty pool, difficulty 4 |
| `LegacyMiner.Miner.AddTransaction` | src/Blockchain.ts:80-83 | the transaction is appended to the pool with no duplicate check; nothing else changes |
| `LegacyMiner.Miner.AddBlock` | src/Blockchain.ts:146-154 | exactly one block is appended; the pool keeps, in order, exactly the transactions whose signature the block does not carry |
| `LegacyMiner.Miner.Mine` | src/Blockchain.ts:118-129 | the block's transactions are exactly the old pool, with no coinbase; `previousHash` is the hash of the old last block; the block passes `validateBlock` with the least such nonce; the chain grows by that block; the pool is empty; a valid chain stays valid |
| `LegacyMiner.Miner.IsValid` | src/Blockchain.ts:167-181 | true exactly when every block at index >= 1 passes proof-of-work and points at the hash of its predecessor; genesis is never checked |
| `NestedMiner.CreatedValidates` | src/Miner.ts:52-74 | the created transaction is already signed, over `{sender, recipient, amount, timestamp}`; under the sign/verify assumption it validates when the sender is the miner's key |
| `NestedMiner.Miner.constructor` | src/Miner.ts:28-43 | the nested node's chain is its own genesis followed by the miner's genesis (no transactions, no `previousHash`, nonce 0, difficulty 4, stamped with the clock); both pools are empty; difficulty is 4, and the nested node's difficulty is 4 and its reward 10 |
| `NestedMiner.Miner.AddTransaction` | src/Miner.ts:77-79 | the transaction is appended to the miner's pool with no duplicate check |
| `NestedMiner.Miner.AddBlock` | src/Miner.ts:141-149 | the block is pushed onto the nested node's chain; only the miner's own pool is filtered, in order; the nested node's pool, difficulty and reward are untouched |
| `NestedMiner.Miner.Mine` | src/Miner.ts:114-124 | the block's transactions are exactly the miner's old pool; it passes `validateBlock` with the least such nonce; the nested chain grows by that block; the miner's pool is empty; the nested node's pool is untouched |
| `Routes.NewTransaction` | src/miner.ts:32-47 | a transfer from the node's key with `coinbase` false is signed (it is `signTransaction` of the created transfer and carries a signature), appended to the pool and returned; under the sign/verify assumption it validates |
| `Routes.ReceiveTransaction` | src/miner.ts:52-73 | a received transaction is added exactly when it validates and no pending transaction has its signature; otherwise nothing changes |
| `Routes.ReceiveBlock` | src/miner.ts:105-122 | a received block is added through `addBlock` exactly when it passes proof-of-work and no block of the chain has its timestamp; its link to the chain is not checked; otherwise nothing changes |
| `Routes.MineRequest` | src/miner.ts:80-99 | with an empty pool nothing is mined and nothing changes; otherwise `mine` runs and its block is returned: the signed coinbase first, then the old pool in order, linked to the hash of the old last block, valid with the least such nonce; the chain grows by it, the pool is emptied and a valid chain stays valid |
| `Scenario.MineOneTransfer` | test/Blockchain.test.ts:50-74 | after a signed transfer of 5 is added and the difficulty is lowered to 2, `mine` gives a block of exactly two transactions, coinbase first, that passes `validateBlock`; the pool is empty and the chain is valid |

## Left out

- Network I/O: `broadcastTransaction`, `broadcastBlock`, the `nodes` set and `registerNode` are axios calls and peer bookkeeping.
- `src/server.ts`, and the Express, `minimist` and console-logging side of `src/miner.ts`. Only the checks of its routes are modelled, in `Routes`.
- `GET /chain` in `src/miner.ts` and the repository's test call `validateChain`, which no node class defines; the class's method is `isValid`.
- `src/Crypto.ts`: SHA-256, ECDSA on curve secp128r1 and `json-stable-stringify` are abstract functions. `Sound` is the only assumption about them; collision resistance is not assumed.
- Tampering with a signed transaction makes `validateTransaction` false only if signatures cannot be forged. That is not assumed, so the property is not stated.
- Chain replacement by a longer valid chain: no file of the repository implements it.
- Work.ProofOfWork: requires that some nonce makes the block valid. The source's loop runs forever when none does (for example above difficulty 64, see `Work.TooDifficultNeverValid`). The `mine` methods require the same of their candidate block.
- Work.ProofOfWork: the source sets the nonce of the caller's block object in place and returns that object. The model returns the updated value instead. Every caller in the repository uses only the returned block, so no aliasing is observable there.
- `Block.difficulty` and `Block.nonce` are natural numbers. A received block with a negative difficulty makes `'0'.repeat` throw; this is not modelled. The nonce never overflows.
- Amounts are unbounded integers; the source never computes with them.
- `Block.index` is declared by the interface but never written by any `createBlock`, so the model's blocks have no index.
- NestedMiner.Miner.Mine: the previous hash is a parameter with no constraint. The source hashes `this.blockchain.lastBlock`, a property the nested node does not define. That value is `undefined`, `json-stable-stringify` returns `undefined` for it, and SHA-256's `update(undefined)` throws a TypeError. So `mine` as written throws before it changes any state, and never builds, appends or returns a block. The model describes `mine` as if a previous hash were available.
- `validateTransaction` of a transaction with no signature passes the missing signature to `verify`. The model does not say what `verify` returns then.
- Ledger.SignThenValidate: requires the transaction to be unsigned. `signTransaction` hashes the transaction as given, so an earlier signature becomes part of the signed data and validation would not recompute that digest.
- The fields of the TypeScript classes are public. The model's classes keep `chain` non-empty (`Valid`) only through their own methods. Lowering `difficulty` directly, as the test does, is an assignment to the field.
- The tests' other expectations: the public key length of 66 and a digest differing for a different input are not modelled.
