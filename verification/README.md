# SecurePoll, verified

SecurePoll is an election system of three parts. A server keeps the electoral roll, divides voters
into anonymity groups and exports each election as a manifest. The voter's client signs a ballot with
a linkable ring signature over its group. A network of ledger nodes, each holding the manifest,
verifies ballots, mines them into a chain and gossips chains until they agree.

This project models all three in Dafny and proves the property they exist for: each voter can have one
ballot counted, and only one.

- **Ledger** (`Blocks`, `Chains`, `Replicas`, `Nodes`, `Network`, `Safety`, `Convergence`,
  `Forks`, `Termination`, `Tallying`, `Crossings`, `Handlers`, `Scenarios`, `Driving`, `Locking`). `Nodes` has one node's objects and handlers as
  classes; `Replicas` the same handlers as functions on values; `Network` any number of nodes as a
  state machine whose steps are single lock sections, with pushes in a bag that may be reordered, lost
  or repeated. The proof-of-work hash, the chain digest and, up to module `Ballots`, the ballot check
  are uninterpreted functions held in a `Rules` value. `Driving` and `Locking` model who drains the pool
  and in which order locks are taken.
- **Signatures** (`Bytes`, `Words`, `Strings`, `PrimeField`, `Groups`, `Xmd`, `Transcripts`, `Wire`,
  `Lsag`, `Signing`, `Acceptance`, `Linking`). The group is any group of prime order with canonical 32-byte
  encodings, given as a value of operations with laws; SHA-512 and the one-way map onto the curve are
  uninterpreted. JavaScript's 32-bit operators, UTF-8 and the little-endian encodings are written out.
  `Acceptance` states what verifiers, decoder and signer accept in terms of the group and the bytes alone.
- **Elections** (`Lifecycle`, `Elections`, `Effects`, `ElectionSafety`, `ElectionRuns`, `Exports`, `RingFormation`,
  `BallotOrder`, `Stranding`, `Manifests`, `Agreement`, `RateLimits`). Service calls are atomic steps
  on a record of tables; runs are sequences of calls. `Effects` says exactly when each call
  succeeds and what is different afterwards. Exports, which run outside any transaction, are
  also modelled query by query (`Exports`).
- **Together** (`Ballots`, `EndToEnd`, `Agreement`). The network instantiated with the real ballot
  check, and the server's ring against the node's.

Collision-freeness of a hash is never assumed globally: it is a hypothesis of the few lemmas that need
it (`Convergence.DigestsDistinct`, `Blocks.CollisionFree`).

Where code and comments disagree the model follows the code:

- `blockchain/README.md:42-45` says the list of peers already sent to is merged at each hop;
  `push_chain_sync` sends only its own recipients (`blockchain/src/app.rs:590-594`).
- `api/src/services/ring.service.ts:65-67` says group sizes are the target or one more; that holds
  exactly when the remainder is at most the number of groups (`RingFormation.TargetOrOneMore`).
- `api/src/services/guards.service.ts:56-61` explains that checking candidates before registration
  closes keeps an election from getting stuck, and it does. Nothing does the same for an electorate
  smaller than the election's own group size (`Stranding.FrozenCanOpen`, `Stranding.ReachableDeadEnd`).
- `blockchain/src/block/mining_pool.rs:4-5` says a voter never has two ballots queued; `requeue`
  makes no check, and no uniqueness of pool entries is claimed.

Some promises are false without a condition, and are proved with the exact one:

- a quiet network agrees on one chain if and only if the blocks mined had a single best one
  (`Forks.QuietMeansOneChain`; a fork in `Scenarios.EqualClocksFork`);
- cached tallies settle as their chains' if and only if no step changes a chain under a pending cache
  write that disagrees with the new chain (`Crossings.TalliesSettleRight`; a stale tally in
  `Scenarios.CrossedCacheWrites`);
- a frozen election can open if and only if its roll fills a group of its size and that size meets the
  minimum (`Stranding.FrozenCanOpen`);
- a complete reorder of candidates succeeds if and only if no candidate stands on a parking position
  taken before its turn (`BallotOrder.ReorderPlaces`; a refused one after 9004 calls, the fewest
  possible, in `BallotOrder.ReorderCollides`);
- a queued ballot is left with nobody draining the pool, or about to, if and only if it came after the
  last look at the pool and a later try of the mining lock failed (`Driving.StrandedAfterMiss`; such a
  run in `Driving.BallotLeftBehind`).

`dafny verify dfyconfig.toml` checks the whole project.

## Model

| member | source | states |
|---|---|---|
| Safety.NetworkSafety | blockchain/src/block/chain.rs:27-126 | In every reachable state of any number of nodes, under reordering, loss and duplication of pushes and any interleaving of handlers, every node's chain and every chain in flight has idx equal to position, is hash-linked, holds only valid blocks with distinct key images, and every seen-set is exactly its chain's images |
| Safety.EveryBlockIsSolved | blockchain/src/block/block.rs:55-99 | In every reachable state each block of every chain held or in flight has its first 20 hash bits clear, is the hash of its own fields and nonce, and carries a candidate and ballot that pass the checks |
| Convergence.QuietMeansSameRank | blockchain/src/app.rs:406-468 | With fixed strongly connected tables and no lost push, whenever nothing is in flight and no handler is about to send, all nodes have chains of equal length and equal last timestamp |
| Forks.QuietMeansOneChain | blockchain/src/app.rs:406-468 | In such a quiet state all nodes hold one chain if and only if the blocks the run's mining steps added have at most one best: no two different ones share the greatest height and timestamp |
| Forks.DistinctClocksOneChain | blockchain/src/block/chain.rs:39-50 | So a network in which no two different blocks are mined at one height with one timestamp falls quiet on one chain |
| Forks.TracedStep | blockchain/src/app.rs:406-503 | Every step keeps what relates chains to mined blocks: each tip held or in flight was mined in this run, and each mined block is still some node's tip or was given up for a better chain |
| Scenarios.EqualClocksFork | blockchain/src/block/chain.rs:39-50 | Two best blocks do happen: two nodes mining different ballots in the same millisecond end in a quiet network with different chains |
| Termination.GossipTerminates | blockchain/src/app.rs:436-459 | While no block is added, the gossip steps taken and the pushes sent together never exceed a potential fixed at the start of the run, so gossip dies out from every reachable state |
| Termination.StepSpends | blockchain/src/block/chain.rs:32-50 | Each step that adds no block lowers that potential by one for a gossip step and one per push sent |
| Tallying.TallyRefinesChain | blockchain/src/http_server/vote_cache.rs:22-34 | When no step changes a chain under a pending cache write that disagrees with the new chain, a settled node's count for each candidate is the number of chain blocks naming it, the counts sum to the total, and the total is the chain length |
| Crossings.TalliesSettleRight | blockchain/src/app.rs:436-496 | That guard is exact: it holds of a run if and only if every state on the way settles with caches that are their chains', in whatever order the pending writes then happen |
| Crossings.CrossingIsExact | blockchain/src/app.rs:414-438 | From caches in step, a step breaks the guard exactly when some order of the writes then pending leaves a node settled with a cache other than its chain's |
| Scenarios.CrossedCacheWrites | blockchain/src/app.rs:436-438 | It does happen: two adoptions whose cache writes cross leave a two-block chain with one counted vote and nothing pending |
| Safety.NoQueuedBallotVanishes | blockchain/src/app.rs:210-289 | The bookkeeping form: in every reachable state each image a node ever queued is in its pool, with its miner, or has been on its chain |
| Safety.PooledBallotStays | blockchain/src/app.rs:210-289 | From every reachable state on, a ballot in a node's pool or with its miner stays there until that node's chain records its image at some point of the run |
| Safety.HistoryTells | blockchain/src/app.rs:210-289 | Each counter of the bookkeeping moves by exactly what the step did to pool, chain and miner |
| Safety.MinerMoves | blockchain/src/app.rs:231-285 | The mining loop step by step: newest task first, a recorded one dropped, the mined ballot recorded, dropped because it already is, or put back; other handlers leave the miner alone |
| Safety.TransitMoves | blockchain/src/app.rs:576-607 | Of any push a delivery or loss takes one copy away, a repetition adds one and a step adds what it sends; no other node changes |
| Safety.DrainIsBounded | blockchain/src/app.rs:278-284 | The drain loop takes at most one task per queued ballot plus one per chain adoption |
| Safety.MineOutcome | blockchain/src/block/chain.rs:79-126 | A block mined on any earlier snapshot is added, retried only if the chain was replaced since, or ignored only because its key image is already on the chain |
| Safety.StepKeeps | blockchain/src/app.rs:406-503 | Every lock section of every handler keeps a node's ledger, task, snapshot and task-conservation invariants |
| Convergence.GossipKeeps | blockchain/src/app.rs:576-628 | Every lossless step keeps the edge invariant: a contact has at least this node's rank, has a push of that rank coming, or is about to be sent one; and everyone a push names as served is |
| Convergence.StepCovers | blockchain/src/block/chain.rs:32-50 | Once a node has reached a rank or has a push of it on the way, no lossless step undoes that: a push is refused only at equal or higher rank |
| Convergence.AdoptionPromises | blockchain/src/app.rs:443-458 | After adopting a pushed chain every contact not named by that push and not its sender will be pushed to: the digest filter skips no one who lacks the chain |
| Convergence.NewPushOk | blockchain/src/app.rs:576-628 | Everyone a new push names as served, its sender included, has the chain or a push of it in flight |
| Tallying.CachesStep | blockchain/src/app.rs:436-496 | Every step within the guard keeps each node such that any order of its pending cache writes ends with its chain's cache |
| Handlers.SyncUninterrupted | blockchain/src/app.rs:406-468 | The lock-by-lock steps of sync_chain, run without interruption, amount to the whole handler, pushes included |
| Handlers.SubmitUninterrupted | blockchain/src/app.rs:139-172 | Submitting a ballot and running its handler at once amounts to the whole handler, a refusal included |
| Handlers.RecordedIsSkipped | blockchain/src/app.rs:232-243 | The miner goes on with a task exactly when its image is not recorded; looking changes nothing else |
| Handlers.BallotUninterrupted | blockchain/src/app.rs:139-175 | A verified unrecorded ballot submitted to an idle node is on its chain and announced to all contacts after eight uninterrupted steps |
| Chains.Chain.Validate | blockchain/src/block/chain.rs:27-76 | Accepts exactly the longer or newer chains whose blocks from 1 on are linked, valid and of distinct images; a refusal names the first failing block and the first check it fails |
| Chains.AdoptableMeans | blockchain/src/block/chain.rs:27-76 | A chain is adopted if and only if it is longer, or as long with a newer last timestamp, and from block 1 on every block names its parent's hash, is valid and brings an image of its own |
| Chains.OneRefusal | blockchain/src/block/chain.rs:32-75 | Every refused chain has exactly one reason, and an adoptable one none |
| Chains.RefusalMeans | blockchain/src/block/chain.rs:32-75 | What each refusal says of the chain and block it names |
| Chains.AcceptedChainIsOkWhen | blockchain/src/block/chain.rs:51-75 | An accepted chain is well formed if and only if its head is: block 0, the idx numbering and clashes with block 0 are what validation leaves to the sender |
| Chains.AcceptedWithoutHead | blockchain/src/block/chain.rs:55-75 | Validation alone does not make a chain well formed: a chain with an unsealed block 0 passes |
| Chains.AddKeepsChainOk | blockchain/src/block/chain.rs:79-126 | Adding an accepted block keeps every chain property, adds its image to the images and strictly raises the rank |
| Chains.AdditionMeans | blockchain/src/block/chain.rs:79-126 | A block is added if and only if it is valid, next in number, on the tip and of a new image; kept for a retry if and only if its image is new but its place is taken or its parent is not the tip |
| Chains.MinedBlockOutcome | blockchain/src/block/chain.rs:79-126 | What validate_addition answers for a block mined on an earlier length of the chain |
| Chains.SameTipSameChain | blockchain/src/block/chain.rs:55-58 | Two well-formed chains of equal height with the same tip hash are equal, under collision-freeness |
| Chains.Chain.Push | blockchain/src/block/chain.rs:15-17 | Appends one block |
| Chains.Chain.Clear | blockchain/src/block/chain.rs:19-21 | Empties the chain |
| Chains.Chain.Extend | blockchain/src/block/chain.rs:23-25 | Appends blocks in order |
| Blocks.LeadingZeroesAreBits | blockchain/src/block/block.rs:10-26 | The byte-and-shift test holds exactly when the first `difficulty` bits are zero; hashes with fewer bits pass only when all zero and the difficulty is whole bytes |
| Blocks.BlockValidMeans | blockchain/src/block/block.rs:55-99 | A block is valid if and only if it has a nonce, its first 20 hash bits are clear, its candidate and ballot pass, and its hash is that of its other fields with the nonce |
| Blocks.ValidateBlock | blockchain/src/block/block.rs:55-99 | The checks in their order: nonce, hash, leading bits, candidate, ballot, recomputed hash |
| Blocks.MinedBlockIsValid | blockchain/src/block/block.rs:159-182 | A verified ballot sealed with a solving nonce passes the validation every other node makes: all the conditions of BlockValidMeans |
| Blocks.MinedBlockRecords | blockchain/src/block/miner.rs:17-34 | A mined block carries the task's candidate, ring, image and signature unchanged, the tip's hash and the next number, and solves the puzzle |
| Blocks.SolvesMeans | blockchain/src/block/block.rs:159-182 | The search stops exactly at the nonces validation accepts: those under which the first 20 hash bits are clear |
| Blocks.HashNamesBlock | blockchain/src/block/block.rs:83-98 | Under collision-freeness a sealed block is determined by its hash |
| Replicas.RebuildTallies | blockchain/src/app.rs:423-427 | Rebuilding from any block sequence counts exactly the first block of each key image, per candidate and in total |
| Replicas.RecordTallies | blockchain/src/http_server/vote_cache.rs:22-26 | Recording one more block keeps the cache in step with the chain, repeated image or not |
| Replicas.DistinctAllCount | blockchain/src/http_server/vote_cache.rs:28-34 | With distinct images the tally counts every block and the total is the chain length |
| Replicas.DrainRecordsEveryBallot | blockchain/src/app.rs:210-289 | Draining with no other handler running empties the pool, keeps the old chain as a prefix, and records exactly the images already there and those pooled, one push round per new block |
| Replicas.MinedOnIsAdded | blockchain/src/app.rs:251-278 | With no other handler running an unrecorded pooled ballot mined on the current chain is added |
| Replicas.SyncKeepsReplicaOk | blockchain/src/app.rs:406-468 | A well-formed pushed chain is adopted exactly when its rank is higher, and leaves chain, seen-set, pool and cache consistent |
| Replicas.AdoptionSends | blockchain/src/app.rs:406-468 | After an adoption exactly those ids are pushed to that are not the sender, not already sent to, and whose digest before was not the adopted chain's; each push names exactly them, and every entry then carries that digest |
| Replicas.AdditionSends | blockchain/src/app.rs:470-503 | A block that is added is counted and the new chain goes to every table entry; otherwise nothing changes and nothing is sent |
| Replicas.AddTaskMeans | blockchain/src/block/mining_pool.rs:21-31 | A task is appended if and only if its candidate stands and its image is not pooled, so pooled images stay distinct |
| Replicas.EnqueueMeans | blockchain/src/app.rs:139-172 | A submitted ballot is counted as rejected if and only if it fails verification or is recorded, and queued if and only if neither holds and its image is not queued |
| Nodes.VoteCache.Record | blockchain/src/http_server/vote_cache.rs:22-26 | Counts a ballot only for a new key image |
| Nodes.VoteCache.TotalVotes | blockchain/src/http_server/vote_cache.rs:32-34 | The number of counted key images |
| Nodes.KnownPeers.AddPeer | blockchain/src/peer/known_peers.rs:14-17 | Lists the peer and enters it with no known chain digest |
| Nodes.KnownPeers.RemovePeer | blockchain/src/peer/known_peers.rs:18-23 | Removes every mention of a peer, keeps the others with their multiplicity, and says whether it was listed |
| Nodes.KnownPeers.UpdateHash | blockchain/src/peer/known_peers.rs:37-41 | Changes one known id's digest, and nothing for an unknown id (what depends on it: AdoptionSends) |
| Nodes.KnownPeers.UpdateHashAll | blockchain/src/peer/known_peers.rs:42-46 | Gives every entry the digest |
| Nodes.MiningPool.Add | blockchain/src/block/mining_pool.rs:21-31 | Refuses a queued image or unknown candidate, otherwise appends, and says which |
| Nodes.MiningPool.TakeLast | blockchain/src/block/mining_pool.rs:33-35 | Pops the newest task |
| Nodes.MiningPool.Requeue | blockchain/src/block/mining_pool.rs:38-40 | Puts a task back without checking for a duplicate |
| Nodes.App.SyncChain | blockchain/src/app.rs:406-468 | The handler on the node's objects: state and pushes are those of SyncWhole, whose recipients AdoptionSends gives |
| Nodes.App.Recount | blockchain/src/app.rs:423-427 | The refill loop yields the chain's images and the rebuilt cache |
| Nodes.App.AddBlockToChain | blockchain/src/app.rs:470-503 | State, verdict and pushes as the value function AddWhole says |
| Nodes.App.PushChainSync | blockchain/src/app.rs:576-607 | The chain goes to every table entry not ignored, naming exactly those ids as sent |
| Nodes.App.QueueTask | blockchain/src/app.rs:139-172 | A failing or already recorded ballot is counted as rejected; others are queued unless already queued |
| Nodes.App.Meanwhile | blockchain/src/app.rs:377-380 | Whatever pushes and ballots other handlers process in between, the node stays consistent, pooled tasks stay pooled, and the chain moves only by adoptions |
| Nodes.App.MineTask | blockchain/src/app.rs:251-278 | Mining one task while other handlers run records it or asks for a retry, and a retry only after an adoption; undisturbed it is the value function AddWhole |
| Nodes.App.MineTurn | blockchain/src/app.rs:231-285 | The same with other handlers running at every point where the loop holds no lock, the retried task put back |
| Nodes.App.DriveMiningPool | blockchain/src/app.rs:210-289 | With any pushes processed and ballots queued wherever the loop holds no lock, it drains the pool in at most one turn per pooled or queued task plus one per adoption; with nothing in between the result is the value function Drain |
| Driving.StrandedAfterMiss | blockchain/src/app.rs:210-289 | A ballot is left in the pool with nobody draining or about to, exactly when nobody holds the lock or is about to try it, a ballot was queued after the last look at the pool, and a try made after that failed |
| Driving.BallotLeftBehind | blockchain/src/app.rs:213-226 | That can happen: a ballot queued between the last look and the release of the lock |
| Driving.TasksKept | blockchain/src/app.rs:210-289 | A task enters by being queued and leaves by being mined for good; otherwise it is in the pool or in hand |
| Driving.NextBallotRescues | blockchain/src/app.rs:165-175 | The handler of the next ballot queued takes the lock, and whatever then follows nobody stops draining before the pool has been empty; with no retry and no further ballot it empties in one turn per task |
| Locking.DeadlockIsCrossing | blockchain/src/app.rs:414-416 | In every reachable state someone inside a lock section can move, unless a chain adoption and a push or save hold what the other waits for; such a pair never gets free |
| Locking.CrossingIsReachable | blockchain/src/app.rs:580-581 | Such a pair is reachable: the adoption takes chain before peer table, the push peer table before chain |
| Locking.StepMoves | blockchain/src/app.rs:406-503 | A step gives a thread at most the one lock it waited for, takes all of them from one that leaves its section, and touches no other |
| Locking.HoldsTaken | blockchain/src/app.rs:406-503 | A thread holds exactly the locks it has taken so far, in its section's order |
| Linking.TsAcceptsSigned | web/src/crypto/lrs/verify.ts:34-70 | For every ring, index, message, election and randomness the TypeScript verifier accepts what sign returns if and only if the image is not the identity and the closing response is not zero |
| Linking.RustAcceptsSigned | blockchain/src/lrs/verify.rs:27-83 | The Rust node parses every signed result with a non-identity image up to 4096 members, and accepts it if and only if the image and every L and R of the walk differ from the identity |
| Signing.Sign | web/src/crypto/lrs/sign.ts:40-104 | Succeeds exactly when the parameters meet the checks, and then the result carries responses and challenges that close at the signer's index |
| Acceptance.SignsWhen | web/src/crypto/lrs/sign.ts:40-68 | The signer's demands: ring and index in range, a reduced non-zero key, members that decode, the member at the index being the key's own point |
| EndToEnd.SignedIsCycle | web/src/crypto/lrs/sign.ts:40-104 | What the signer returns is a cycle of challenges in which every response but its own is its own draw's scalar and its own position commits to the first draw |
| Signing.Chain | web/src/crypto/lrs/sign.ts:76-97 | The arrays hold the drawn responses, the challenges filled round the ring from the next index, and the closing response |
| Signing.Fill | web/src/crypto/lrs/sign.ts:83-94 | The cyclic loop leaves after every position but the signer's the challenge of that position's step |
| Signing.OwnStepCloses | web/src/crypto/lrs/sign.ts:96-97 | The closing response makes the signer's own step recommit to alpha, so the loop closes there too |
| Acceptance.RandomScalarReduces | web/src/crypto/lrs/curve.ts:50-54 | A random scalar is the drawn number modulo the order, with zero replaced by one |
| Acceptance.EveryScalarIsDrawn | web/src/crypto/lrs/curve.ts:50-54 | Every non-zero scalar comes of some 64 random bytes |
| Signing.FilledIsRewalked | web/src/crypto/lrs/verify.ts:55-61 | The array filled cyclically is the sequence the verifier recomputes linearly from its first element |
| Linking.Extraction | blockchain/src/lrs/verify.rs:67-82 | Two accepted walks of one ring with one image that share a step's (L, R) but enter it with different challenges determine one scalar x with P_j = x*G and image equal to deriveKeyImage of x |
| Linking.SignedImage | web/src/crypto/lrs/keygen.ts:47-52 | A signature carries deriveKeyImage of its private key and election, and derivePublicKey of it is the ring member at the signer's index |
| Acceptance.PublicKeyMeans | web/src/crypto/lrs/keygen.ts:36-38 | A public key is the encoding of x*G, for exactly the reduced non-zero private keys |
| Acceptance.KeyImageMeans | web/src/crypto/lrs/keygen.ts:47-52 | A key image is x times the base of the derived public key and the election, for the reduced non-zero x of the private key |
| Linking.SameKeyLinks | web/src/crypto/lrs/link.ts:4-8 | Any two signatures of one key in one election have equal key images, whatever the rings, positions, messages and draws |
| Linking.AreLinked | web/src/crypto/lrs/link.ts:20-29 | True exactly for equal key images |
| Linking.IdentityImage | web/src/crypto/lrs/sign.ts:73-74 | The image is the identity exactly when the key hashes to the identity |
| Linking.OwnCommitmentNotIdentity | blockchain/src/lrs/verify.rs:72-76 | At the signer's own position L is never the identity, and R only if the key hashes to it |
| Linking.SomeoneCanSign | web/src/crypto/lrs/sign.ts:44-74 | The conditions on signing can be met, shown in a group of thirteen elements |
| Lsag.TsVerify | web/src/crypto/lrs/verify.ts:34-70 | Checks shape, members, image, scalars in the stated order, walks the ring hashing the built transcripts, and answers as TsAccepts, which TsAcceptsCycles characterises |
| Acceptance.TsAcceptsCycles | web/src/crypto/lrs/verify.ts:34-70 | The TypeScript verifier accepts if and only if ring and image decode to points other than the identity, scalars are reduced, no response is zero, and there are challenges c with c[0] = c0 and each c[i+1 mod n] the hash of s_i*G + c_i*P_i and s_i*H_i + c_i*I |
| Acceptance.RustAcceptsCycles | blockchain/src/lrs/verify.rs:27-83 | The Rust verifier accepts if and only if the shape and decoding checks hold and there is such a cycle in which no position commits to the identity |
| Acceptance.ClosesIsCycle | web/src/crypto/lrs/verify.ts:55-65 | The walk comes back to c0 exactly when there is a cycle of challenges, which then is the walk |
| Lsag.RustVerify | blockchain/src/lrs/verify.rs:27-83 | The same for the Rust verifier and RustAccepts, characterised by RustAcceptsCycles |
| Lsag.RustWalk | blockchain/src/lrs/verify.rs:67-82 | The walk rejects a step that commits to the identity and ends with the comparison to c0 |
| Lsag.VerifiersAgree | blockchain/src/lrs/verify.rs:67-82 | On every canonical signature the two verifiers agree, apart from zero responses, which TypeScript refuses, and identities met on the way, which Rust refuses |
| Lsag.RustKeyImageBase | blockchain/src/lrs/hash.rs:96-112 | The hand-built input and expansion give the key-image base |
| Groups.ResponseCloses | web/src/crypto/lrs/sign.ts:96-97 | A response alpha - c*x at base b cancels c times x*b, leaving alpha*b |
| Groups.TwoAnswers | blockchain/src/lrs/verify.rs:69-70 | Equal commitments under different challenges determine the discrete logarithm, by an inverse modulo the prime order |
| Groups.MulIsZero | web/src/crypto/lrs/curve.ts:100-103 | A multiple is the identity exactly when the point is or the scalar is zero modulo the order |
| Groups.ScalarCodec | web/src/crypto/lrs/curve.ts:57-76 | Each scalar has exactly one accepted 32-byte encoding |
| Groups.LawsCanBeMet | web/src/crypto/lrs/curve.ts:23-31 | The assumed laws of a prime-order group with canonical encodings hold of a concrete group |
| Wire.DecodeSerialized | web/src/crypto/lrs/serialize.ts:71-100 | Deserializing the serialization of every canonical signature within the cap gives it back |
| Wire.SerializedDecode | web/src/crypto/lrs/serialize.ts:71-100 | Whatever is accepted is canonical and re-serializes to the bytes it came from |
| Wire.OneEncoding | blockchain/src/lrs/serialize.rs:81-132 | A signature has exactly one accepted encoding |
| Acceptance.SerializedLayout | web/src/crypto/lrs/serialize.ts:47-64 | Byte positions of an encoding: version at 0, count at 1, challenge at 5, image at 37, response i at 69 + 32i |
| Acceptance.DecodesWhen | blockchain/src/lrs/serialize.rs:81-132 | A buffer decodes if and only if its bytes are version 1, a little-endian count from 2 to the cap, a reduced challenge, a decodable non-identity image and exactly that many reduced responses; the fields are those slices |
| Acceptance.DecodeErrorMeans | blockchain/src/lrs/serialize.rs:81-132 | What each decoding error says of the bytes; a response blamed is the first that is not reduced |
| Wire.CapOnlyLimitsSize | blockchain/src/lrs/serialize.rs:95-97 | The Rust deserializer accepts exactly what the TypeScript one does with at most 4096 responses, agrees error for error within that size, and reports the ring size beyond it |
| Wire.Serialize | web/src/crypto/lrs/serialize.ts:47-64 | Succeeds exactly on well-shaped signatures and writes version, count, challenge, image and responses in that order |
| Wire.TsDeserialize | web/src/crypto/lrs/serialize.ts:71-100 | Checks in the stated order; the first failure is the answer |
| Wire.RustDeserialize | blockchain/src/lrs/serialize.rs:81-132 | The same order with the cap of 4096, yielding decoded scalars and point |
| Words.TsU32le | web/src/crypto/lrs/hash.ts:24-34 | Refuses what does not fit 32 bits, otherwise masks and shifts give the little-endian bytes |
| Words.ReadIsLittleEndian | web/src/crypto/lrs/serialize.ts:33-41 | The shift-or read with the final unsigned shift is the little-endian value, sign bit included |
| Words.SignedRange | web/src/crypto/lrs/hash.ts:28-33 | A bitwise operator's result is the number in the signed 32-bit range that agrees modulo 2^32 |
| Words.ReadUndoesWrite | web/src/crypto/lrs/serialize.ts:33-41 | readU32le after u32le is the identity on all 32-bit values at any offset |
| Words.U32leReads | blockchain/src/lrs/hash.rs:23-26 | The four-byte tag of a 32-bit length decodes to it |
| Strings.Utf8Injective | blockchain/src/lrs/serialize.rs:27-35 | Different strings have different UTF-8 encodings |
| Bytes.BytesEqual | web/src/crypto/lrs/verify.ts:72-77 | The accumulated xor-or difference is zero exactly for equal byte strings of equal length |
| Transcripts.MessageInjective | web/src/crypto/lrs/serialize.ts:116-123 | With fields under 2^32 bytes the signed message determines election, ring and candidate |
| Transcripts.KeyImageInputInjective | web/src/crypto/lrs/hash.ts:59-62 | The key-image preimage determines key and election |
| Transcripts.ChallengeInjective | web/src/crypto/lrs/hash.ts:86-101 | The challenge transcript determines message, ring in order, L and R |
| Acceptance.ChallengeCommits | web/src/crypto/lrs/hash.ts:86-101 | A challenge commits to message, ring, L and R: if any differs there is a 64-byte hash under which the challenges differ |
| Acceptance.KeyImageBaseCommits | web/src/crypto/lrs/hash.ts:59-62 | A key-image base commits to key and election: if either differs there is a hash under which the bases differ |
| Transcripts.PrefixesDiffer | web/src/crypto/lrs/hash.ts:17-21 | No signed message is also a challenge transcript |
| Transcripts.TagVote | blockchain/src/lrs/serialize.rs:29 | The byte constant is the ASCII tag |
| Transcripts.TagHp | web/src/crypto/lrs/hash.ts:19 | Likewise for the key-image base |
| Transcripts.TagHs | web/src/crypto/lrs/hash.ts:20 | Likewise for the scalar hash |
| Transcripts.TagChal | web/src/crypto/lrs/hash.ts:21 | Likewise for the challenge |
| Transcripts.Concat | web/src/crypto/lrs/serialize.ts:125-135 | The offset-tracking copy joins the parts in order |
| Transcripts.TsEncodeMessage | web/src/crypto/lrs/serialize.ts:116-123 | Fails exactly when a field is 2^32 bytes or more, otherwise gives the signed message |
| Transcripts.RustEncodeMessage | blockchain/src/lrs/serialize.rs:27-35 | Gives the same bytes |
| Transcripts.TsChallengeInput | web/src/crypto/lrs/hash.ts:86-101 | Fails exactly when a length does not fit, otherwise gives the transcript, which TsChallenge hashes for signer and verifier |
| Transcripts.RustChallengeInput | blockchain/src/lrs/hash.rs:132-147 | The same transcript bytes, which RustChallenge hashes for the verifier |
| Transcripts.TsChallenge | web/src/crypto/lrs/hash.ts:86-101 | The challenge is the hash of the transcript built from both encoded points |
| Transcripts.RustChallenge | blockchain/src/lrs/hash.rs:132-150 | The Rust challenge is the hash of its transcript bytes, the same number as the TypeScript one |
| Transcripts.TsKeyImageInput | web/src/crypto/lrs/hash.ts:59-62 | Fails exactly when a length does not fit, otherwise gives the preimage |
| Transcripts.RustKeyImageInput | blockchain/src/lrs/hash.rs:107-112 | Gives the same bytes |
| Transcripts.PushLenPrefixed | blockchain/src/lrs/hash.rs:29-32 | Appends a length tag and the bytes |
| Xmd.ExpandMessageXmd | blockchain/src/lrs/hash.rs:40-84 | Within the asserted bounds the loop returns the first bytes of b_1 to b_ell as section 5.3.1 of RFC 9380 defines them |
| Xmd.BoundsMean | blockchain/src/lrs/hash.rs:44-45 | Lengths up to 255 * 64 and tags up to 255 bytes are within the standard's bounds, and no others |
| Xmd.ExpansionIs | blockchain/src/lrs/hash.rs:40-84 | The expansion in full: byte k is byte k mod 64 of digest k/64 + 1, where b_0 hashes 128 zero bytes, the message, the length in two bytes, a zero byte and the tag; b_1 hashes b_0; and each later b_i hashes b_0 masked with the digest before, each with its number and the tag |
| Xmd.CastsLossless | blockchain/src/lrs/hash.rs:44-56 | Within those bounds every one-byte and two-byte length or counter decodes to the number it stands for |
| Xmd.XorInto | blockchain/src/lrs/hash.rs:70-73 | The inner loop is the bytewise exclusive or |
| Ballots.CheckSubmission | blockchain/src/http_server/http.rs:92-141 | The ordered checks: exactly when each of the seven answers is given, verification before the seen-set |
| Ballots.OneAnswer | blockchain/src/http_server/http.rs:97-141 | The answers exclude one another |
| Ballots.CastBallot | blockchain/src/http_server/http.rs:92-162 | A refusal is counted and nothing else happens; an accepted ballot is offered to the pool, and copies of it are handed to peers known when each is sent: at most the fan-out's number, exactly that if every first attempt reaches someone |
| Ballots.DistributeVoteTask | blockchain/src/http_server/http.rs:298-349 | A copy goes to the first of up to three drawn peers that is reached, and to none only if there are no peers or none was |
| Ballots.FanOutIsTwoFifths | blockchain/src/http_server/http.rs:151-158 | The number of copies is two fifths of the peers rounded up, never more than the peers |
| Ballots.CopiesAreQueued | blockchain/src/app.rs:139-172 | A node of the same election queues a copy unless it has recorded that image; it never rejects one as invalid |
| Ballots.AcceptedIsValid | blockchain/src/http_server/http.rs:97-141 | A submission is accepted exactly when it names this election, parses, would pass verify_task and is not recorded |
| Ballots.VerifyBallot | blockchain/src/block/block.rs:105-131 | Decides whether the signature parses, carries the block's key image and verifies for the node's own ring |
| Ballots.VerifyTask | blockchain/src/app.rs:181-206 | Decides exactly what block validation demands of ring, candidate, image and signature |
| Ballots.SignedBallotAccepted | blockchain/src/http_server/http.rs:92-141 | A ballot the client signs for a ring and candidate of the manifest is accepted, called a double vote, or called invalid, exactly as its image is new, recorded, or a step met the identity |
| EndToEnd.BallotMeans | blockchain/src/block/block.rs:105-132 | A ballot counts if and only if its ring is in the node's manifest, it decodes to a signature with that image, and that signature is a cycle over the node's ring for this election, ring id and candidate |
| EndToEnd.AnswerMeans | blockchain/src/http_server/http.rs:92-162 | Each answer of the endpoint in terms of election, candidate, ring, decoding, the cycle of challenges and the seen images; an accepted ballot becomes a task of exactly its fields |
| EndToEnd.OneBallotPerKey | blockchain/src/block/chain.rs:54-73 | No chain held or sent in any reachable network state has two ballots of one private key, whatever rings, positions, candidates and randomness |
| EndToEnd.SecondBallotRefused | blockchain/src/http_server/http.rs:137-141 | Once a ballot of a key is on a node's chain the endpoint accepts no other ballot of that key |
| EndToEnd.KeyCountsOnce | blockchain/src/http_server/vote_cache.rs:22-34 | A settled node's total exceeds the ballots not signed with a given key by at most one |
| EndToEnd.SerializedInjective | web/src/crypto/lrs/serialize.ts:47-64 | Different well-shaped signatures have different encodings |
| Manifests.FromJson | blockchain/src/election.rs:112-200 | Loads exactly the manifests that meet every check, keeping ids and each ring's key order; a refusal names the first check that fails, all before it having passed |
| Manifests.OneBlame | blockchain/src/election.rs:112-200 | Every manifest that does not load has exactly one refusal, and one that loads has none |
| Manifests.LoadsWhen | blockchain/src/election.rs:112-200 | A manifest loads if and only if it is version 1 and named, with candidates and groups whose ids are not blank and differ from all before, and usable groups |
| Manifests.BlankMeans | blockchain/src/election.rs:124-136 | An id is refused as empty exactly when every character of it is white space |
| Manifests.WhitespaceListed | blockchain/src/election.rs:124-136 | The 25 code points trimming removes, one by one |
| Manifests.RingMeans | blockchain/src/election.rs:148-176 | A group is usable if and only if its id is not blank and its keys are there, distinct, 32 bytes, and points other than the identity |
| Manifests.LoadedGroups | blockchain/src/election.rs:112-200 | A loaded manifest has exactly the file's candidate and group ids, and under each group id the file's keys in order |
| Manifests.LoadCandidates | blockchain/src/election.rs:133-144 | Succeeds exactly when the candidate ids are non-blank and distinct, and yields their set |
| Manifests.LoadRings | blockchain/src/election.rs:146-189 | Succeeds exactly when every group is usable and the ids are distinct, and files each group under its id |
| Manifests.LoadRing | blockchain/src/election.rs:148-176 | Reports exactly the unusable groups, by the first check that fails: blank id, no keys, a bad key, or a repeated key |
| Manifests.DistinctByCount | blockchain/src/election.rs:168-176 | Comparing the count of distinct keys with the count of keys detects exactly a repetition |
| Manifests.VoterCountIsListed | blockchain/src/election.rs:225-227 | voter_count is the number of keys the file lists |
| RingFormation.ShuffleInPlace | api/src/services/ring.service.ts:44-54 | The in-place swaps from the back are the shuffle function of the drawn indices |
| RingFormation.ShufflePermutes | api/src/services/ring.service.ts:44-54 | Every shuffle is a permutation |
| RingFormation.ShuffleIsBijective | api/src/services/ring.service.ts:34-43 | Every order of distinct items comes from exactly one choice of draws, so equally likely draws make every order equally likely |
| RingFormation.Partition | api/src/services/ring.service.ts:69-80 | The dealing loop computes the closed form target + r/g, plus one for the first r mod g groups |
| RingFormation.SizesCover | api/src/services/ring.service.ts:69-80 | For count at least target the sizes sum to count, are at least target and differ by at most one |
| RingFormation.TargetOrOneMore | api/src/services/ring.service.ts:65-67 | Sizes are the target or one more exactly when the remainder does not exceed the number of groups |
| RingFormation.NineteenInTens | api/src/services/ring.service.ts:65-67 | Nineteen voters in tens make one group of nineteen |
| RingFormation.Fill | api/src/services/ring.service.ts:323-348 | The cursor fill succeeds exactly when the sizes add up to the electorate, and cuts it into consecutive runs; otherwise it says whether voters ran out or were left over |
| RingFormation.ChunksJoin | api/src/services/ring.service.ts:323-340 | The groups joined in order are the shuffled electorate, each of its size |
| RingFormation.Form | api/src/services/ring.service.ts:307-348 | Shuffle, partition and fill together; fewer voters than the target are left over and refused |
| RingFormation.GroupsCover | api/src/services/ring.service.ts:302-350 | Formed groups are an exact cover: joined they are a reordering of the electorate, each of its closed-form size, at least the target and less than twice it |
| ElectionRuns.OpenElectionIsSound | api/src/services/guards.service.ts:161-206 | In every run from empty tables an election in or past VOTING_OPEN has two candidates, groups, all published and of at least the minimum size, every roll member in exactly one group at one position, and no one else in any |
| ElectionRuns.StatusNeverReturns | api/src/services/lifecycle.ts:55-66 | A status once left never comes back, whatever calls follow |
| ElectionRuns.FrozenManifest | api/src/services/ring.service.ts:452-537 | Once a manifest is exported, after any further calls every group still carries the digest of exactly that content and every export, by any admin, succeeds with the same content |
| Exports.ExportsAgree | api/src/services/ring.service.ts:452-537 | However exports, group formation and other calls interleave query by query, and wherever exports break off, all exports that returned for an election gave one manifest, which it still has, with every group published under its digest |
| Exports.FirstGroupFixesManifest | api/src/services/ring.service.ts:517-519 | From the first group published on, even by an export that then breaks off, the manifest never changes and no group carries any other digest |
| Exports.ExportUninterrupted | api/src/services/ring.service.ts:452-537 | An export that nothing interrupts returns what the atomic call returns and leaves the tables as that call does |
| Exports.CheckMeans | api/src/services/ring.service.ts:509-526 | An export that read every group published returns its manifest; otherwise it publishes if and only if a super-admin asked and the guards passed, and is gone if not |
| Exports.ThrowsEnd | api/src/services/ring.service.ts:466-483 | An export of no groups or no candidates, or one that breaks off, is gone and has changed no table |
| Exports.OnlySuperAdminsPublish | api/src/services/ring.service.ts:509-526 | In every run only exports a super-admin asked for come to publish a group |
| Exports.PublishedRefusesInsert | api/src/services/ring.service.ts:294-316 | A group published between a formation's check and its delete makes the insert of the new groups violate a unique index |
| Exports.DoKeeps | api/src/db/repository/rings.repository.ts:57-82 | Every interleaved step keeps the table invariants, and every running export reads the groups there are or is bound to fail |
| Exports.CallsAreServed | api/src/services/ring.service.ts:452-537 | With no formation under way the other calls run among exports as they do one at a time |
| Exports.ConflictMeans | api/src/db/schema/rings.ts:40-94 | New groups are refused exactly when a group left has the index of a new one or a voter would be in both |
| Exports.FormUninterrupted | api/src/services/ring.service.ts:285-350 | The check and the write of a formation, taken without interruption, are the whole call, and possible exactly when it succeeds |
| Exports.FormationLocks | api/src/services/ring.service.ts:285-350 | While groups are being formed no call but a redemption gets at the election, no second formation starts, and breaking off releases it |
| Exports.FormationEnds | api/src/services/ring.service.ts:294-350 | A formation ends with its second step, the insert refused or not, and a refused one changes no table |
| ElectionRuns.StepEvolves | api/src/services/lifecycle.ts:99-118 | No call by anyone moves a frozen election's title, window, candidates, roll or group size, or a published manifest |
| ElectionRuns.ExportFixes | api/src/services/ring.service.ts:485-537 | A successful export leaves every group published under the digest of the manifest returned |
| ElectionRuns.CoverIsUnique | api/src/services/guards.service.ts:126-137 | An exact cover puts each voter at exactly one position of one group |
| ElectionSafety.StepKeeps | api/src/services/guards.service.ts:63-233 | Every service call keeps the table invariants |
| ElectionSafety.FormedCovers | api/src/services/ring.service.ts:302-350 | Newly formed groups cover the roll exactly, with usable and distinct keys copied from the voters' records |
| ElectionSafety.TransitionKeeps | api/src/services/election.service.ts:268-313 | A permitted transition keeps the invariant of the stage it enters and raises the stage |
| ElectionSafety.ExportKeeps | api/src/services/ring.service.ts:485-537 | Publishing changes no membership, so the manifest that is digested is the one that stays |
| ElectionSafety.FormKeeps | api/src/services/ring.service.ts:285-350 | Groups are formed only before publication and before voting opens |
| ElectionSafety.RollCallKeeps | api/src/services/review.service.ts:425-565 | Changes to metadata or roll keep the invariant and happen only before groups freeze |
| ElectionSafety.CandidateCallKeeps | api/src/services/candidate.service.ts:56-195 | Candidate edits keep ids and positions distinct and happen only before groups freeze |
| ElectionSafety.ReorderKeeps | api/src/services/candidate.service.ts:207-253 | A reorder that succeeds keeps ids and positions distinct and happens only before groups freeze |
| ElectionSafety.TokenCallKeeps | api/src/services/ballotAccess.service.ts:146-203 | Credentials are issued only to voters on the frozen roll |
| ElectionSafety.ApproveKeeps | api/src/services/review.service.ts:206-297 | Approval mints a voter whose key no one holds, and enrols only while registration is open |
| ElectionSafety.ReplaceKey | api/src/services/keyRotation.service.ts:399-406 | A rotation to a key held by nobody else keeps keys distinct; memberships keep the copy they were formed with |
| ElectionSafety.PeopleCallKeeps | api/src/services/keyRotation.service.ts:332-406 | Registration, rejection and key replacement never touch an election |
| Lifecycle.TransitionsGoOn | api/src/services/lifecycle.ts:55-66 | Each transition leads to a later stage; groups freeze only from REGISTRATION_OPEN and voting opens only from RINGS_FROZEN |
| Lifecycle.EditsPrecedeFreeze | api/src/services/lifecycle.ts:99-118 | Metadata, candidate and roll operations are legal only before groups freeze; forming, issuing and exporting only after, and forming never once voting opened |
| Lifecycle.TransitionsAre | api/src/services/lifecycle.ts:55-66 | A transition is allowed if and only if it is to the next stage or a cancellation before groups freeze |
| Lifecycle.OperationsAre | api/src/services/lifecycle.ts:99-118 | Which of the operations each status allows |
| Elections.OrderCovers | api/src/db/repository/candidates.repository.ts:29-38 | Ballot order lists each candidate once by ascending position |
| Elections.ListingCovers | api/src/db/repository/eligibility.repository.ts:68-80 | The electorate listing names each voter on the roll once |
| Effects.CallsArrive | api/src/services/election.service.ts:132-242 | What a call asks for arrives in the field it names |
| Effects.SetEligibilityMeans | api/src/services/review.service.ts:425-461 | Puts one voter on the roll or takes them off, the latter only outside every group; nobody else moves |
| Effects.TransferMeans | api/src/services/review.service.ts:486-521 | Puts all named voters on the roll, or none if one does not exist |
| Effects.RemoveMeans | api/src/services/review.service.ts:532-565 | Takes exactly the named voters who are in no group off the roll |
| Effects.SubmitMeans | api/src/services/registration.service.ts:41-68 | Files a registration if and only if its key is usable and neither claimed nor held |
| Effects.ApproveMeans | api/src/services/review.service.ts:206-308 | Mints the voter with the registered key if and only if the registration is pending, the key is free and the roll named is open; the voter goes on that roll only |
| Effects.RejectMeans | api/src/services/review.service.ts:310-350 | Rejects exactly a pending registration |
| Effects.RequestRotationMeans | api/src/services/keyRotation.service.ts:141-318 | A pending registration's key is corrected in place; an approved voter's request is filed if and only if the key is usable and free, not every enrolment is frozen, and no request waits |
| Effects.ReviewRotationMeans | api/src/services/keyRotation.service.ts:332-406 | A pending request is reviewed, and approved if and only if nobody else holds the new key and not every enrolment is frozen; approval changes that voter's key and nothing else |
| Effects.CreateMeans | api/src/services/election.service.ts:132-169 | A new election is an empty draft, if and only if size and window are in range |
| Effects.UpdateMeans | api/src/services/election.service.ts:183-242 | Metadata changes only before groups freeze; fields not given stay and the resulting window is in order |
| Effects.TransitionMeans | api/src/services/election.service.ts:268-313 | A transition happens if and only if it is allowed, a super-admin asks for it, and the election is ready for it; only the status changes |
| Effects.AddMeans | api/src/services/candidate.service.ts:63-118 | Adds a candidate where asked if and only if that is in range and free, or after all others if no place is asked for |
| Effects.EditMeans | api/src/services/candidate.service.ts:120-169 | Replaces the given fields of one candidate if and only if it exists, editing is open, and the position asked for is in range and free |
| Effects.RemoveCandidateMeans | api/src/services/candidate.service.ts:171-195 | Removes exactly the named candidate while editing is open |
| Effects.FormMeans | api/src/services/ring.service.ts:285-350 | Forming succeeds if and only if groups are frozen, none is published and the roll fills a group of a permitted size; members carry the key then on record |
| Effects.ExportMeans | api/src/services/ring.service.ts:452-537 | An export of a frozen election with groups and candidates succeeds for anyone once all groups are published, before that if and only if a super-admin asks and the election is ready; it stamps exactly the unpublished groups |
| Effects.IssueMeans | api/src/services/ballotAccess.service.ts:146-203 | Issuing succeeds if and only if groups are frozen or voting is open, a super-admin asks, the roll is not empty and new credentials would not be expired already; it gives one to exactly those on the roll who have none |
| Effects.RedeemMeans | api/src/services/ballotAccess.service.ts:440-464 | A credential is redeemed if and only if it lives and voting is open, and is then marked as used; nothing else changes |
| Effects.ManifestShows | api/src/services/ring.service.ts:485-537 | The manifest shows the election's title and window, every candidate once in ballot order with name, affiliation and position, and every group with its members' keys in order |
| BallotOrder.ReorderPlaces | api/src/services/candidate.service.ts:207-253 | A list naming every candidate once succeeds exactly when no candidate holds a parking position that goes to one listed before it; afterwards the k-th named holds position k with nothing else changed |
| BallotOrder.ReorderCollides | api/src/services/candidate.service.ts:231-236 | It can fail: 9004 calls lead to a draft election whose last candidate stands on the first parking position, and a complete reorder of it is refused |
| BallotOrder.ReorderSucceedsEarly | api/src/services/candidate.service.ts:71-72 | Requests cannot name such a position and automatic ones grow one at a time, so in every run of fewer than 9004 calls every complete reorder succeeds |
| BallotOrder.UpdatePass | api/src/services/candidate.service.ts:231-236 | One pass of single-row updates, each of which the unique index may refuse |
| Stranding.FrozenCanOpen | api/src/services/guards.service.ts:63-95 | A RINGS_FROZEN election can reach VOTING_OPEN if and only if its group size meets the minimum and its roll fills one group; otherwise no calls ever move it |
| Stranding.ReachableDeadEnd | api/src/services/guards.service.ts:82-92 | The guard on closing registration lets such a dead end happen: two voters, two candidates, groups of three |
| Stranding.FormableOpens | api/src/services/ring.service.ts:285-350 | Otherwise rejecting what is pending, forming, exporting and transitioning gets there |
| Agreement.RedeemFindsRing | api/src/services/ballotAccess.service.ts:437-488 | In every run from empty tables a redemption succeeds if and only if the election exists, the voter's credential has not expired and voting is open; it is VotingNotOpen exactly when the credential is live and voting is not open, LinkNotValid otherwise; the ring served is the published group holding the voter with their copied key |
| Agreement.RedeemStamps | api/src/services/ballotAccess.service.ts:440-464 | A redemption that serves a ring marks the credential as used and changes nothing else; a refused one changes nothing |
| Agreement.FindRingFinds | api/src/db/repository/rings.repository.ts:121-135 | The lookup finds a group holding the voter exactly when there is one |
| Agreement.VoterAndNodeAgree | api/src/services/ballotAccess.service.ts:465-496 | The ring handed to the voter is key for key the ring of every node that loaded the election's manifest |
| Agreement.ExportLoads | blockchain/src/election.rs:112-200 | Every manifest any run can export is one the node loads |
| Agreement.NodeCountsTheRoll | blockchain/src/election.rs:225-227 | A node that loaded it counts as many keys as the roll has voters |
| Agreement.VoterIsAccepted | blockchain/src/http_server/http.rs:92-141 | A voter who redeems, and signs with the key behind their place, is accepted by every such node unless a step met the identity or their ballot is recorded |
| Agreement.RedeemedRingIsSmall | api/src/api/schemas.ts:77-77 | A redeemed ring has fewer than two thousand keys, within the node's cap of 4096, because group sizes are capped where an election is configured |
| RateLimits.WindowBound | api/src/api/middleware/rateLimit.ts:46-66 | Of n requests falling in one window exactly the first max pass (one if max is zero) |
| RateLimits.WindowOpens | api/src/api/middleware/rateLimit.ts:46-66 | The request that opens a window passes, and the next of its window count on from it |
| RateLimits.IntervalBound | api/src/api/middleware/rateLimit.ts:46-66 | At most twice that pass in any stretch of time shorter than a window |
| RateLimits.SweepingChangesNothing | api/src/api/middleware/rateLimit.ts:39-44 | Under a nondecreasing clock each request is admitted exactly when its key's own bucket, never swept, would admit it |
| RateLimits.SharedIntervalBound | api/src/api/middleware/rateLimit.ts:34-66 | The limiter itself, whatever other keys do and whenever buckets are swept, passes at most twice the maximum of one key's requests in any stretch shorter than a window |
| RateLimits.Limiter.Handle | api/src/api/middleware/rateLimit.ts:34-66 | Sweeps, then opens or counts up the key's bucket, and admits as stated |
| RateLimits.Limiter.Sweep | api/src/api/middleware/rateLimit.ts:40-44 | Deletes exactly the buckets whose window is over |
| RateLimits.SweptKeepsLive | api/src/api/middleware/rateLimit.ts:40-44 | A map of more than 10000 buckets keeps exactly those whose window goes on; a smaller one is left alone |
| RateLimits.Credential.Consume | api/src/db/repository/ballotAccessTokens.repository.ts:258-298 | The conditional update of window start and counter, changing nothing when refused |
| RateLimits.ResendsDecideAlike | api/src/db/repository/ballotAccessTokens.repository.ts:258-298 | The resend allowance decides every history exactly as the bucket does, so the same bounds hold |

## Left out

- Sockets, web servers, SQL text, mail, file dumps and command lines: only the state change each handler makes is modelled.
- ristretto255, SHA-512 and SHA-256 themselves: an abstract prime-order group and uninterpreted functions stand for them. Anonymity, unforgeability and other hardness claims are not stated.
- base64url and JSON text: keys, signatures and manifests are modelled after decoding. Lone surrogates in JavaScript strings are not modelled.
- Peer discovery, removal of peers after a failed send, and nodes that join late or restart from a saved chain: gossip is claimed for fixed tables and nodes that start empty. `Nodes.KnownPeers.RemovePeer` is modelled, its use during gossip is not.
- Nodes that run other code: every statement about networks is about nodes running this one.
- In the network modules a copy of a ballot handed to a peer is one more submission there.
- Survival of a mined ballot when its chain is replaced by a longer one, and uniqueness of pool entries: not true of the code, and not claimed.
- National id, email and name of registrations and voters, with their unique indexes: the public key stands for the identity. Descriptions, photos, registration windows and ledger addresses of elections are left out too.
- Delivery of credentials, hash rotation on resend, change of recipient: a credential is modelled as the row of its election and voter.
- Previews, fingerprints, monitoring, the audit log, staff accounts and dashboards: read-only or easy.
- The reorder of candidates with a list that repeats an id: modelled as the code runs it, with no claim that it succeeds or fails.
- Row-by-row order inside a transaction: each service call is one step on values, so aliasing and statement order inside it are not captured, except for the reorder passes, the shuffle, the partition, the fill, and the check and write of group formation.
- ElectionRuns.FrozenManifest: takes an export as one step; its separate queries, two exports racing, an export racing group formation and one that breaks off are the subject of module Exports.
- Exports.ExportsAgree: the publish guards may answer anything, since their queries see different moments; that a returned export also passed them at one moment is not claimed. New group ids are taken never to repeat.
- Nodes.App.DriveMiningPool: each other handler runs as a whole, at the points where the loop holds no lock, and the loop's own start is the subject of module Driving; lock-by-lock interleaving is that of the network modules.
- Network.Take: the network modules let the miner start whenever the pool is not empty. The code may leave a ballot waiting for the next one (module Driving), so it takes fewer steps than the model and the safety results cover it.
- Lock sections of the network modules are single steps. The code takes chain before peer table in one section and peer table before chain in others, so two handlers can block each other for good (`Locking.CrossingIsReachable`); no progress of a node in that state is claimed.
- Ballots.CastBallot: two fifths are computed exactly, where the code rounds a floating-point product.
- Convergence.QuietMeansSameRank: assumes digests that do not collide, for lost pushes nothing is claimed.
- Termination.GossipTerminates: bounds runs without duplicated pushes.
- Crossings.TalliesSettleRight: a cache is right when its counted images and its tally are its chain's; a wrong set of images may still show right counts.
- Locking.DeadlockIsCrossing: says when nobody can move, not which states can no longer avoid it.
- Xmd.ExpandMessageXmd: the TypeScript side calls a library for the same expansion, which is taken to follow RFC 9380.
