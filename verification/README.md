# HoneyBadger BFT, modelled and proved in Dafny

This project models the consensus stack of the hbbft library and proves what its protocols
are for. `dafny verify dfyconfig.toml` checks everything.

Every protocol object is a class whose methods update its fields as the code does. Each method
is proved against a function from the old state to the new one, and the properties are proved
about these functions: as invariants of one node, and then of a whole network.

| part | files |
|---|---|
| quorums, sets in ascending order | `Quorums.dfy`, `Orders.dfy`, `Options.dfy` |
| Binary Agreement with Synchronized BV Broadcast and the common coin | `BoolMultimap.dfy`, `Sbv*.dfy`, `ThresholdSign*.dfy`, `BinaryAgreement*.dfy` |
| Reliable Broadcast, Merkle trees, the shard codec | `Broadcast*.dfy`, `Merkle.dfy`, `IdealHash.dfy`, `ErasureCoding.dfy`, `ShardSubsets.dfy`, `SmallCode.dfy` |
| Subset, Honey Badger | `Subset*.dfy`, `EpochState*.dfy`, `HoneyBadger*.dfy` |
| these layers together | `Consensus.dfy` |
| synchronous key generation | `Polynomials.dfy`, `SyncKeyGen*.dfy`, `KeyShares.dfy`, `KeyShareDegrees.dfy`, `MasterSecrets.dfy` |
| Dynamic Honey Badger | `Votes*.dfy`, `DynamicHoneyBadger*.dfy`, `Dhb*.dfy` |
| sender queue | `SenderQueue*.dfy` |
| network dimensions | `NetworkDimension.dfy` |

## How the networks are modelled

Validators are numbered `0` to `N - 1`, by their position among the sorted identifiers, and
observers have larger numbers. At most `f = (N - 1) / 3` validators are faulty. A run is any
sequence of inputs and deliveries. A message of a correct node can be delivered to another
correct node once it has been sent, in any order, any number of times or never; a faulty node
may send any message under its own number at any time. The state of each correct node is kept
together with its history: what it has heard, sent and been given. The history is what
certificates are made of: `f + 1` votes, `N - f` votes, and so on.

The theorems of the form "in every run" quantify over all runs of all networks, all sets of
faulty nodes within the bound, and all coin functions. For Binary Agreement networks of every
size exist. For Reliable Broadcast there must be a code for that many shards; Reed-Solomon codes
over bytes have at most 256 of them.

## What is idealised

- Hashes are functions without collisions on leaves and on pairs. A leaf and a pair may collide,
  because the code hashes both in the same way.
- The erasure code is a parameter with a stated law (`ErasureCoding.Lawful`): it finds a codeword
  from any `N - 2 f` of its shards, keeps the shards that are there, and finds a codeword from
  exactly `N - 2 f` shards if it finds anything. The law is proved for the code without parity
  shards, and for a code for four nodes (`SmallCode`), with which there are networks in which any
  one node is faulty.
- A signature share says who signed what. A validator's share exists for others only once it has
  sent it. The coin is an arbitrary function of the epoch that is common to all nodes.
- Field elements are real numbers, whose order is used only to tell the points of the nodes apart.
  A commitment is the polynomial it commits to. A ciphertext is readable by its recipient alone.
- Integers are unbounded, except for the 32-bit size prefix of the shard codec and for the
  network dimensions, where the machine types are modelled.

## Where the code and its documentation differ

- `src/broadcast/mod.rs:10-11` promises that with a faulty proposer all correct validators get
  the value or none does. Nodes may have different sets of leaves under the same root, and the code
  does not check that the leaves are a codeword, since only the missing shards are reconstructed.
  For given leaves, the promise holds in all runs exactly if there are no parity shards, or the
  leaves are a codeword, or they do not decode at all (`BroadcastTotality.TotalityIff`). In all
  other cases there is a run after which all messages of correct nodes have been handled, and one
  correct node has an output and another has none; for example for the leaves in
  `SmallCode.MisfitsDiffer` (`BroadcastTotality.MisfitsSplit`).
- `src/broadcast/mod.rs:9` promises that all receive the value of a correct proposer. This holds
  exactly if its size fits into 32 bits (`ErasureCoding.PayloadRoundTrip`,
  `BroadcastSafety.Validity`), since the size is truncated in `src/broadcast/broadcast.rs:144`.
- `src/sync_key_gen.rs:11-14` promises success with up to `t` faulty nodes. The code does not
  check the degree of a commitment. Whatever faulty nodes do with a given commitment, the key
  shares fit the public key exactly if its rows, at zero and at the points of the nodes, are those
  of a polynomial of degree `t` (`KeyShareDegrees.SharesMatchIff`). For commitments with fewer
  powers than there are nodes this is the missing check of the degree
  (`KeyShareDegrees.DegreeIsTheCondition`). `KeyShareDegrees.DegreeMatters` has a log of four nodes,
  one of them faulty, after which the share of a correct node is wrong.
- `src/sync_key_gen.rs:163-170` promises that the shares are those of the master secret. Whenever
  the shares fit, all large enough sets of validators get the same secret out of them
  (`MasterSecrets.SameSecret`). It is the one behind the public key exactly if the public key, too,
  looks like one of degree `t` at zero (`MasterSecrets.MasterSecret`), which the missing check would
  ensure. `MasterSecrets.SecretCanDiffer` has shares that fit while the secret is another one.
- `src/dynamic_honey_badger/mod.rs:58-61` says that Dynamic Honey Badger outputs the user
  contributions of every batch and passes its key generation messages on. But an error in one batch
  drops the step with all batches of the same call, those before it and those after it
  (`src/dynamic_honey_badger/dynamic_honey_badger.rs:316-391`). A call is lost exactly if one of its
  batches, in the state that those before it lead to, contains a key generation message that is
  signed by a validator that is about to leave, or ends with a majority for an empty network
  (`DhbFailures.CallIsLostIff`). The latter is a panic (`src/util.rs:22-25`), which ends the run.
  `DhbFailures.BatchesAreLost` has such a batch, and a good one that is lost with it, whichever
  comes first.
- `src/dynamic_honey_badger/batch.rs:109-120` is there to compare the batches of different nodes.
  But how batches are divided into calls depends on when messages
  arrive (`src/honey_badger/honey_badger.rs:157-170`). This makes no difference while no batch
  fails (`DhbDivisions.DivisionsAgree`). Otherwise correct nodes with the same batches can output
  different ones, exactly if anything can come out at all (`DhbDivisions.DivisionMattersIff`); for
  example those in `DhbDivisions.NodesDiffer`.
- `src/binary_agreement/mod.rs:28-36` promises that what any correct node believes in, all will, and
  that enough `Aux` messages arrive. This is so as long as all correct nodes are in one epoch
  (`BinaryAgreementStall.BeliefSpreads`). But nodes go on to the next epoch on their own, and messages
  of past epochs are dropped (`src/binary_agreement/binary_agreement.rs:245-250`), so that they no
  longer repeat a value that others need. `BinaryAgreementStallRun.NetworkStalls` has a run after
  which all messages of correct nodes have been handled, but nobody has decided.
- `src/binary_agreement/mod.rs:58-66` promises that everyone gets to the coin. But the `Conf` round is
  tried only when a `Conf` comes in, not when a node only believes in more values
  (`src/binary_agreement/binary_agreement.rs:310-312`). As long as all correct nodes are in one epoch,
  this is the only way to get stuck (`BinaryAgreementStall.StuckOnlyInConfRound`).
- A comment at `src/binary_agreement/binary_agreement.rs:314` lists the coins as `false`, `true`,
  random. The code (439-450) and `src/binary_agreement/mod.rs:48-49` start with `true`.
- `src/honey_badger/epoch_state.rs:313-316` asks whether `Done` is always the last output of the
  subset. It is: `SubsetRuns.DoneOnceAndLast`.

## Model

| member | source | states |
|---|---|---|
| Quorums.MaxFaulty | src/util.rs:22-25 | `f` is the greatest number with `3 f < n` |
| Quorums.QuorumsIntersect | src/network_info.rs:98-108 | two sets of `N - f` validators share a correct one |
| Quorums.HasCorrect | src/network_info.rs:98-100 | more than `f` validators include a correct one |
| SbvObject.SbvBroadcast.Clear | src/binary_agreement/sbv_broadcast.rs:81-87 | a new epoch starts with the nodes that have terminated counted as senders of `BVal` and `Aux`, and with nothing else |
| SbvObject.SbvBroadcast.HandleMessage | src/binary_agreement/sbv_broadcast.rs:89-94 | a message changes the fields in place as the specification says, with the same messages, output and faults |
| SbvObject.SbvBroadcast.SendBval | src/binary_agreement/sbv_broadcast.rs:102-108 | `BVal(b)` is sent once and counted by ourselves; the recursion through our own message ends |
| SbvObject.SbvBroadcast.HandleBval | src/binary_agreement/sbv_broadcast.rs:114-137 | a `BVal` is counted once per sender; at exactly `2 f + 1` we believe in it, and at exactly `f + 1` we repeat it |
| SbvObject.SbvBroadcast.HandleAux | src/binary_agreement/sbv_broadcast.rs:150-155 | an `Aux` is counted once per sender and may complete the output |
| SbvObject.SbvBroadcast.TryOutput | src/binary_agreement/sbv_broadcast.rs:158-168 | there is an output at most once per epoch, of the values we believe in that came in an `Aux` |
| SbvObject.SbvBroadcast.CountAux | src/binary_agreement/sbv_broadcast.rs:176-186 | the loop counts `Aux` messages with values we believe in, and a node that sent both is counted twice |
| SbvThresholds.ThresholdsHold | src/binary_agreement/sbv_broadcast.rs:114-137 | although thresholds are compared by equality and one call may raise several counts, none is skipped: in every run we believe in exactly the values with `2 f + 1` `BVal`s, have sent `BVal` at `f + 1`, have sent `Aux` exactly if we believe in something, and have output exactly if `N - f` `Aux`s count |
| SbvThresholds.HandleBvalComplete | src/binary_agreement/sbv_broadcast.rs:114-137 | one `BVal`, with all the recursion it starts, keeps that |
| SbvThresholds.HandleAuxComplete | src/binary_agreement/sbv_broadcast.rs:150-168 | one `Aux` keeps that |
| SbvThresholds.DuplicatesAreReported | src/binary_agreement/sbv_broadcast.rs:114-155 | exactly the messages that count already are reported as duplicates, whatever else a message sets off |
| ThresholdSignObject.ThresholdSign.Sign | src/threshold_sign.rs:157-174 | our share is released once, counted, and sent only by validators |
| ThresholdSignObject.ThresholdSign.HandleMessage | src/threshold_sign.rs:181-197 | a share is checked, counted once per sender, and bad ones are reported; unknown senders are an error until we have terminated |
| ThresholdSignObject.ThresholdSign.TryOutput | src/threshold_sign.rs:227-247 | with `f + 1` shares we output once, and release our own share, too |
| ThresholdSignRuns.SignedIff | src/threshold_sign.rs:157-247 | in every run there is a signature, output once, exactly if more than `f` validators have sent their share for the document or been asked for it; forged shares do not count; and our share is sent once, not before we are asked for it or there is a signature |
| ThresholdSignRuns.ForgeryIsReported | src/threshold_sign.rs:181-197 | until there is a signature, exactly the shares that are not those of their sender for this document are reported, and unknown senders are an error; after that nothing happens |
| BinaryAgreementSpec.FreshSendBval | src/binary_agreement/binary_agreement.rs:491-520 | in a fresh epoch our own `BVal(b)` completes nothing, or in a network of one outputs `{b}`: the reason why the recursion ends |
| BinaryAgreementSpec.ReceivedMessages.ContentsAreRecorded | src/binary_agreement/binary_agreement.rs:72-137 | what is taken out of the queue for future epochs was put into it |
| BinaryAgreementObject.BinaryAgreement.constructor | src/binary_agreement/binary_agreement.rs:209-224 | a new instance is settled, in epoch 0, with the coin known to be true |
| BinaryAgreementObject.BinaryAgreement.Propose | src/binary_agreement/binary_agreement.rs:232-240 | an input counts once and only in epoch 0; the call terminates, in any state that calls can lead to, and leaves nothing undone |
| BinaryAgreementObject.BinaryAgreement.HandleMessage | src/binary_agreement/binary_agreement.rs:245-269 | late messages expire except terms, far ones are faults, future ones are queued, all others handled; every call terminates and leaves nothing undone |
| BinaryAgreementObject.BinaryAgreement.HandleSbvbStep | src/binary_agreement/binary_agreement.rs:303-327 | the output of the BV broadcast becomes the candidate values in a fixed-coin epoch, and starts the `Conf` round in a random one |
| BinaryAgreementObject.BinaryAgreement.HandleConf | src/binary_agreement/binary_agreement.rs:331-334 | a `Conf` is recorded per sender and may complete the round |
| BinaryAgreementObject.BinaryAgreement.HandleTerm | src/binary_agreement/binary_agreement.rs:339-353 | `f + 1` terms decide; otherwise a term counts as `BVal`, `Aux` and `Conf` of the current epoch |
| BinaryAgreementObject.BinaryAgreement.HandleCoin | src/binary_agreement/binary_agreement.rs:357-365 | a share goes to the coin of the current epoch, and is ignored if the coin is known |
| BinaryAgreementObject.BinaryAgreement.SendConf | src/binary_agreement/binary_agreement.rs:368-382 | `Conf` is sent and counted once per epoch |
| BinaryAgreementObject.BinaryAgreement.OnCoinStep | src/binary_agreement/binary_agreement.rs:397-408 | the coin becomes known once, and the epoch is finished if the candidates are |
| BinaryAgreementObject.BinaryAgreement.TryUpdateEpoch | src/binary_agreement/binary_agreement.rs:416-435 | we decide if the coin confirms the only candidate; otherwise we go on with the candidate, or with the coin |
| BinaryAgreementObject.BinaryAgreement.Decide | src/binary_agreement/binary_agreement.rs:453-468 | there is one output, and a `Term` for the next epoch from validators |
| BinaryAgreementObject.BinaryAgreement.TryFinishConfRound | src/binary_agreement/binary_agreement.rs:471-482 | with `N - f` confirmations of values we believe in, we release our coin share |
| BinaryAgreementObject.BinaryAgreement.UpdateEpoch | src/binary_agreement/binary_agreement.rs:491-520 | the new epoch starts with terms counted; queued messages for it are handled until the epoch moves on or we decide |
| BinaryAgreementRounds.ConfRound | src/binary_agreement/binary_agreement.rs:331-334 | a `Conf` that is handled while the coin is open, after our candidates are known: if with it `N - f` nodes have confirmed nothing but values we believe in, the coin is known, our share is out or the epoch is over, and a validator that had not signed sends its share; with fewer, nothing happens but that it is recorded |
| BinaryAgreementRounds.OwnConfRound | src/binary_agreement/binary_agreement.rs:368-382 | the same for our own `Conf`, which is sent in any case |
| BinaryAgreementRounds.ObserverRound | src/binary_agreement/binary_agreement.rs:368-382 | observers confirm nothing, but go on as soon as they have candidates if `N - f` others have confirmed already |
| BinaryAgreementRounds.EpochEnds | src/binary_agreement/binary_agreement.rs:416-450 | once candidates and coin are known: we decide exactly if the coin is the only candidate, and then output it and send `Term`; otherwise the next epoch starts with the candidate, or with the coin if there are two. The coin is `true`, `false`, thrown, and so on |
| BinaryAgreementRounds.TermsDecide | src/binary_agreement/binary_agreement.rs:339-353 | a `Term` that is handled decides its value at once exactly if more than `f` nodes have then terminated with it; otherwise its sender counts for it in `BVal`, `Aux` and `Conf` |
| BinaryAgreementRecords.HandleMessageKeeps | src/binary_agreement/binary_agreement.rs:72-137 | a message is counted in its epoch or queued for it, unless it is late, more than 1000 epochs early, or contradicts an earlier one of its kind; and what has been counted or queued before stays, through all recursion, until its epoch is over |
| BinaryAgreementProgress.HandleMessageLive | src/binary_agreement/binary_agreement.rs:245-269 | after every message a node has done all that it can: no threshold of the broadcast or of the coin is missed, candidates are taken up, terms count as votes, and the estimate has been sent |
| BinaryAgreementSends.HandleMessageSends | src/binary_agreement/binary_agreement.rs:245-269 | what a validator notes as sent by a call (`BVal`, `Aux`, `Conf`, its coin share, the `Term` of a decision) is among the messages that the call returns |
| BinaryAgreementFaults.MisbehaviourIsReported | src/binary_agreement/binary_agreement.rs:72-137 | a message that is too far ahead, repeats or contradicts one that is queued, repeats one of the current broadcast, or is a forged coin share, is reported as that, and does nothing else; of messages for later epochs nothing else is reported |
| BinaryAgreementNode.HandleBvalOk | src/binary_agreement/sbv_broadcast.rs:114-137 | a handler keeps the claims of its node: what it sends, believes and outputs has a certificate in what it has heard |
| BinaryAgreementNode.HandleTermOk | src/binary_agreement/binary_agreement.rs:339-353 | a term keeps them, too: while undecided, at most `f` nodes have terminated with either value |
| BinaryAgreementNode.SignOk | src/threshold_sign.rs:157-174 | a share is released only after our own `Conf` round or `f` shares of others |
| BinaryAgreementNode.EnterEpochOk | src/binary_agreement/binary_agreement.rs:491-504 | a new epoch starts with an estimate that the last one justifies |
| BinaryAgreementNode.ProposeOk | src/binary_agreement/binary_agreement.rs:232-240 | an input keeps the claims of the node |
| BinaryAgreementNode.HandleMessageOk | src/binary_agreement/binary_agreement.rs:245-269 | every message keeps the claims of the node, through all recursion |
| BinaryAgreementNetwork.RunInv | src/binary_agreement/mod.rs:1-159 | every run keeps the invariant of the network: all nodes' claims, authentic messages, and an origin for every `BVal` and every coin share |
| BinaryAgreementNetwork.RunExtends | src/binary_agreement/binary_agreement.rs:245-269 | whatever may be delivered or input next can be handled: no run gets stuck |
| BinaryAgreementNetwork.SystemsExist | src/util.rs:22-25 | there is a system, with runs, for every number of nodes and every set of at most `f` faulty ones |
| BinaryAgreementSafety.Agreement | src/binary_agreement/mod.rs:5-6 | in every run no two correct nodes decide differently, at any two times, by the coin or by `f + 1` terms |
| BinaryAgreementSafety.Validity | src/binary_agreement/mod.rs:4-5 | in every run a value that no correct node proposes is never believed in, sent in `BVal`, `Aux` or `Term`, estimated or decided by a correct node |
| BinaryAgreementSafety.CandidatesAgree | src/binary_agreement/sbv_broadcast.rs:158-186 | in every run, singletons of candidates that two correct nodes have in the same epoch, at any two times, are equal |
| BinaryAgreementSafety.SingletonAgreement | src/binary_agreement/sbv_broadcast.rs:158-186 | this holds for the outputs of any epoch, also if terms were counted as `Aux` |
| BinaryAgreementSafety.OneAuxVote | src/binary_agreement/sbv_broadcast.rs:81-87 | a correct validator casts one vote per epoch: an `Aux`, or an earlier `Term` |
| BinaryAgreementSafety.DecisionTrace | src/binary_agreement/binary_agreement.rs:339-353 | every decision goes back to one that the coin confirmed, in no later epoch |
| BinaryAgreementSafety.BeliefTrace | src/binary_agreement/sbv_broadcast.rs:114-137 | every value believed in was decided earlier, or some correct node started the epoch with it |
| BinaryAgreementSafety.NotBelievedAfter | src/binary_agreement/binary_agreement.rs:416-435 | after the first decision for `b` no correct node ever believes in the other value |
| BinaryAgreementSafety.CoinGate | src/binary_agreement/binary_agreement.rs:471-488 | in every run, when a correct node has released its coin share for an epoch, some correct node already had `N - f` confirmations of values it believed in |
| BinaryAgreementLiveness.RunLive | src/binary_agreement/binary_agreement.rs:245-269 | so in every run: every correct node has done all that it can, has nothing queued for its epoch, and has sent what it notes as sent |
| BinaryAgreementLiveness.NothingIsLost | src/binary_agreement/binary_agreement.rs:72-137 | in every run: what a node has handled for its current epoch, or for a later one within the limit, is counted or still queued, across any changes of the epoch; of a sender that contradicts itself, one message of each kind is |
| BinaryAgreementStall.BeliefSpreads | src/binary_agreement/mod.rs:28-32 | if all correct validators are undecided in one epoch, and have handled what the others said in it: what one believes in, all believe in |
| BinaryAgreementStall.StuckOnlyInConfRound | src/binary_agreement/mod.rs:23-66 | in that case the epoch is one with a thrown coin, its `Conf` round is complete, and some validator has missed this, since it does not look again when it only believes in more values: a network in one epoch cannot get stuck anywhere else |
| BinaryAgreementStallRun.NetworkStalls | src/binary_agreement/mod.rs:28-36 | for every coin, a run of four nodes, one of them faulty, in which all have proposed and all messages of correct nodes have been handled by all others, but nobody has decided: two are in the next epoch, and the third one believes only in `false`, although another did in `true`, and has two of the three `Aux` messages it needs |
| Merkle.FromVec | src/broadcast/merkle.rs:20-33 | the loop builds all levels, the root last, also with odd levels |
| Merkle.MakeProof | src/broadcast/merkle.rs:36-53 | the loop collects the branch of a leaf, and fails exactly outside the leaves |
| Merkle.Validate | src/broadcast/merkle.rs:83-103 | the loop accepts exactly the proofs whose digests lead to the root and are used up |
| Merkle.ProofsAreValid | src/broadcast/merkle.rs:36-53 | for every number of leaves, all proofs are valid |
| Merkle.ProofsBind | src/broadcast/merkle.rs:83-103 | a valid proof for the root of `n` leaves is the proof of the leaf at its index |
| Merkle.RootsDetermineValues | src/broadcast/merkle.rs:20-33 | trees with equally many leaves and equal roots have equal leaves |
| Merkle.BranchClimbs | src/broadcast/merkle.rs:83-103 | climbing along the branch of a leaf ends at the root, level by level |
| Merkle.RootBinds | src/broadcast/merkle.rs:128-134 | the root determines every level below it |
| IdealHash.HashesExist | src/broadcast/merkle.rs:137-145 | the assumption on hashes can be met |
| ErasureCoding.TrivialIsLawful | src/broadcast/broadcast.rs:418-474 | the code without parity shards meets the law that is required of the other |
| SmallCode.SmallCodingIsLawful | src/broadcast/broadcast.rs:418-474 | so does a code for four nodes with two parity shards: any two shards give back the others |
| SmallCode.FourNodes | src/broadcast/broadcast.rs:78-97 | with it there are networks of four nodes, of which any one may be faulty |
| ErasureCoding.LengthRoundTrip | src/broadcast/broadcast.rs:144-146 | the size prefix holds the size modulo 2^32 |
| ErasureCoding.ShardLen | src/broadcast/broadcast.rs:149-151 | a shard is never empty, and the shards hold the payload |
| ErasureCoding.ShardsAreCodeword | src/broadcast/broadcast.rs:149-165 | what is sent is a codeword of `N` shards |
| ErasureCoding.PayloadRoundTrip | src/broadcast/broadcast.rs:350-388 | decoding undoes size prefix, padding and chunking exactly if the size fits into 32 bits |
| ErasureCoding.PayloadOfShards | src/broadcast/broadcast.rs:350-388 | otherwise it gives the payload cut to its size modulo 2^32 |
| ErasureCoding.DecodeRoundTrip | src/broadcast/broadcast.rs:350-388 | any `N - 2 f` shards of a payload below 2^32 bytes give it back |
| BroadcastObject.BroadcastInstance.Broadcast | src/broadcast/broadcast.rs:99-113 | only the proposer, and only once, can start the broadcast; it sends all shards and handles its own |
| BroadcastObject.BroadcastInstance.SendShards | src/broadcast/broadcast.rs:139-194 | each other node is sent the proof of its shard, and ours is returned if we are a validator |
| BroadcastObject.BroadcastInstance.MakeShards | src/broadcast/broadcast.rs:139-165 | the padded and divided buffer with its parity is the codeword of the payload |
| BroadcastObject.BroadcastInstance.HandleMessage | src/broadcast/broadcast.rs:118-127 | messages of known senders change the fields in place as the specification says; unknown senders are an error |
| BroadcastObject.BroadcastInstance.HandleValue | src/broadcast/broadcast.rs:197-224 | only the first valid `Value` of the proposer is echoed, and others are reported as they deserve |
| BroadcastObject.BroadcastInstance.HandleEcho | src/broadcast/broadcast.rs:227-259 | a valid `Echo` counts once per sender; `N - f` of them make us ready, and otherwise we try to output |
| BroadcastObject.BroadcastInstance.HandleReady | src/broadcast/broadcast.rs:262-288 | a `Ready` counts once per sender; at exactly `f + 1` we send ours, and then try to output |
| BroadcastObject.BroadcastInstance.SendReady | src/broadcast/broadcast.rs:303-312 | our `Ready` is sent once and counted by ourselves; the recursion ends |
| BroadcastObject.BroadcastInstance.ComputeOutput | src/broadcast/broadcast.rs:316-345 | with `2 f + 1` readys and `N - 2 f` echos we decode once, or report the proposer |
| BroadcastNode.HandleMessageOk | src/broadcast/broadcast.rs:118-127 | every message keeps the claims of a node: one echo, one ready, each with a certificate, and outputs with `2 f + 1` readys |
| BroadcastNode.BroadcastOk | src/broadcast/broadcast.rs:99-113 | the input does, too, and all that is sent to single nodes are their proofs of it |
| BroadcastProgress.HandleMessageLive | src/broadcast/broadcast.rs:227-288 | after every message nothing is missed: readys are sent at `f + 1` readys or `N - f` echos, and there is an output unless the shards cannot be decoded |
| BroadcastProgress.FreshReadyLive | src/broadcast/broadcast.rs:262-288 | no threshold is missed by one new `Ready`, although it is compared by equality and our own message comes in between |
| BroadcastProgress.HandleEchoLive | src/broadcast/broadcast.rs:227-259 | no threshold is missed by one `Echo`, even in observers, which return early |
| BroadcastNetwork.RunInv | src/broadcast/mod.rs:1-80 | every run keeps the invariant of the network: behind every ready of a correct node are `N - f` echos that some correct node saw |
| BroadcastNetwork.RunExtends | src/broadcast/broadcast.rs:118-127 | whatever may be delivered or input next can be handled: no run gets stuck |
| BroadcastNetwork.SystemsExist | src/broadcast/broadcast.rs:429-436 | there is a system, with runs, for every lawful code and every set of at most `f` faulty nodes |
| BroadcastSafety.ReadysAgree | src/broadcast/broadcast.rs:303-312 | in every run all readys of correct nodes carry one root hash |
| BroadcastSafety.EchoedAgree | src/broadcast/broadcast.rs:253-258 | `N - f` echos cannot be for two root hashes |
| BroadcastSafety.Agreement | src/broadcast/mod.rs:10-11 | in every run no two correct nodes output different bytes, even with a faulty proposer and different sets of shards |
| BroadcastSafety.OneOutput | src/broadcast/broadcast.rs:316-345 | no node outputs twice, and it has output exactly if it says so |
| BroadcastSafety.Validity | src/broadcast/mod.rs:9 | in every run with a correct proposer, any output of a correct node comes from its input, and is equal to it exactly below 2^32 bytes |
| BroadcastSafety.Totality | src/broadcast/mod.rs:10-11 | when all messages of correct validators are handled: if one correct node has output what some leaves stand for, and these decode alike for all nodes with enough of them, all have output the same |
| BroadcastTotality.TotalityIff | src/broadcast/mod.rs:10-11 | for given leaves, this is so in all runs exactly if they decode alike: exactly if there is no parity, or they are a codeword, or they do not decode |
| BroadcastTotality.MisfitsSplit | src/broadcast/broadcast.rs:350-388 | concrete leaves for four nodes for which it is not so |
| BroadcastSplit.SplitRun | src/broadcast/broadcast.rs:197-345 | a run to the end for leaves of which some do not decode and with at most `f` more do: one correct node has an output, another has none |
| BroadcastSplit.OnReady | src/broadcast/broadcast.rs:262-345 | what a `Ready` does to a node with given echos and readys, up to its output |
| BroadcastSafety.TotalityCondition | src/broadcast/broadcast.rs:350-388 | for leaves that were output, this is so exactly if there is no parity or they are a codeword |
| ShardSubsets.DecodeAlikeIff | src/broadcast/broadcast.rs:350-388 | all sets of at least `N - 2 f` leaves decode alike exactly if there is no parity, the leaves are a codeword, or not even all of them decode |
| ShardSubsets.AnyThenAll | src/broadcast/broadcast.rs:350-388 | what any of the leaves decode to, all of them decode to |
| SmallCode.MisfitsDiffer | src/broadcast/broadcast.rs:350-388 | concrete leaves that decode, while the first `N - f` of them do not |
| BroadcastSafety.Delivery | src/broadcast/mod.rs:9 | when all messages of correct validators are handled, every correct node has output the input of a correct proposer, below 2^32 bytes |
| BroadcastSafety.RipeDecides | src/broadcast/broadcast.rs:316-388 | with enough messages for a root whose leaves decode, and decode alike for all, a correct node has decided |
| BroadcastSafety.EveryoneEchoed | src/broadcast/broadcast.rs:227-259 | at the end, `N - f` echos at one node mean `N - 2 f` at every correct one |
| BroadcastSafety.EveryoneReady | src/broadcast/broadcast.rs:262-288 | at the end, `f + 1` readys of correct nodes mean `N - f` at every correct one |
| BroadcastFaults.FaultsAreDeserved | src/broadcast/broadcast.rs:197-345 | a fault is reported only if the message proves it, or the shards cannot be decoded |
| BroadcastFaults.MisbehaviourIsReported | src/broadcast/broadcast.rs:197-288 | and every message that proves a fault of its sender is reported as that, and does nothing else |
| BroadcastFaults.DecodingIsReported | src/broadcast/broadcast.rs:316-345 | a message that completes what is needed for a root leads to an output or to a report of the proposer, except in observers that have just become ready by an `Echo` |
| BroadcastFaults.AlwaysDecodable | src/broadcast/broadcast.rs:316-345 | with a correct proposer, shards can always be decoded |
| BroadcastFaults.NoFalseAccusation | src/broadcast/mod.rs:46-49 | in every run no correct node reports a correct node as faulty, the proposer included |
| SubsetObject.Subset.Propose | src/subset/subset.rs:103-115 | a value goes to our own broadcast, if we are a validator |
| SubsetObject.Subset.Handle | src/subset/subset.rs:120-128 | a message goes to its instance, whose answer moves the proposal; errors of the instance end the call |
| SubsetObject.Subset.CountAccepted | src/subset/subset.rs:147-150 | the number of accepted proposals |
| SubsetObject.Subset.ReceivedProposals | src/subset/subset.rs:131-134 | the number of received proposals |
| SubsetObject.Subset.TryOutput | src/subset/subset.rs:154-169 | at exactly `N - f` accepted proposals we vote against the others; when all are complete we are done |
| SubsetObject.Subset.VoteAgainstAll | src/subset/subset.rs:159-163 | the loop votes against all open proposals, until a call fails |
| SubsetRuns.VotesKeepPhase | src/subset/subset.rs:159-163 | voting against all keeps the state of every proposal in line with the answers there were, and rejects nothing that was accepted |
| SubsetRuns.RunInv | src/subset/subset.rs:103-169 | every run keeps the invariant |
| SubsetRuns.DoneOnceAndLast | src/subset/subset.rs:164-167 | in every run `Done` is output at most once, nothing after it, and exactly when `N - f` proposals are accepted and all are complete |
| SubsetRuns.EveryAgreementHasInput | src/subset/subset.rs:155-163 | in every run, once `N - f` proposals are accepted, every undecided agreement has an input: the count cannot jump over `N - f` |
| SubsetRuns.ContributionsAreAccepted | src/subset/proposal_state.rs:89-135 | in every run the contributions are the values of accepted proposals, at most one for each proposer, and at `Done` they are all of them |
| SubsetRuns.Agreement | src/subset/subset.rs:120-169 | two nodes that are done have the same contributions, given the agreement of the sub-protocols |
| SubsetRuns.EnoughContributions | src/subset/subset.rs:154-169 | and these come from at least `N - f` proposers |
| SubsetRuns.CountedIff | src/subset/subset.rs:131-150 | in every run the proposals counted as accepted are those whose agreement said yes, and those counted as received are those whose value we have, unless their agreement said no |
| SubsetRuns.CallFailsIff | src/subset/subset.rs:120-128 | a call fails exactly for unknown proposers and by errors of an instance that is still needed, and then it changes and outputs nothing |
| EpochStateObject.EpochState.ProcessSubset | src/honey_badger/epoch_state.rs:306-354 | the loop does what the specification says for each output |
| EpochStateObject.EpochState.HandleDecryptionShare | src/honey_badger/epoch_state.rs:252-271 | shares make an entry for their proposer unless it is rejected |
| EpochStateRuns.StrategiesAgree | src/honey_badger/epoch_state.rs:131-163 | for every sequence of outputs and shares, handling the subset incrementally or all at the end gives the same accepted set and the same batch |
| EpochStateRuns.RunsCorrespond | src/honey_badger/epoch_state.rs:306-354 | before `Done` the one is the other without its buffer, after it they have the same data |
| EpochStateRuns.ShareIsNoted | src/honey_badger/epoch_state.rs:252-271 | a share makes an entry for its proposer exactly if the subset is not done without it, and changes no entry that is there |
| HoneyBadgerObject.HoneyBadger.HandleMessage | src/honey_badger/honey_badger.rs:100-116 | unknown senders are an error; otherwise new state and batches are those of the specification, and there is a fault exactly for epochs beyond the window |
| HoneyBadgerObject.HoneyBadger.TryOutputBatches | src/honey_badger/honey_badger.rs:157-170 | the loop ends, and outputs a batch for each epoch that is ready |
| HoneyBadgerRuns.RunInv | src/honey_badger/honey_badger.rs:149-185 | in every run there is one batch for each closed epoch, in order, determined by what was handled for it, and the open epochs stay in the window |
| HoneyBadgerRuns.SameBatch | src/honey_badger/epoch_state.rs:277-303 | equal contributions give equal batches, whatever their order and strategy |
| HoneyBadgerBatches.BatchMeans | src/honey_badger/epoch_state.rs:277-303 | for both strategies and any order of events there is a batch exactly if the subset is done; a proposer is in it with a value exactly if the subset has output bytes that stand for this value, and among the faulty ones exactly if they stand for none |
| HoneyBadgerBatches.BatchesMean | src/honey_badger/honey_badger.rs:157-170 | in every run: so it is for every batch that is output and the subset of its epoch |
| HoneyBadgerBatches.ClosedIff | src/honey_badger/honey_badger.rs:157-170 | in every run: an epoch has its batch exactly if its subset and those of all earlier epochs are done; no call leaves a batch for later |
| HoneyBadgerBatches.HandledIff | src/honey_badger/honey_badger.rs:100-116 | exactly the messages for the current epoch and `max_future_epochs` more are handled |
| HoneyBadgerRuns.Agreement | src/honey_badger/honey_badger.rs:157-170 | of two runs whose subsets agree, the batches of one are a prefix of those of the other |
| Consensus.AnsweredSucceeds | src/subset/proposal_state.rs:89-135 | over any runs of the agreement and the broadcast for each proposer, every sequence of calls is one for which the results about runs of a subset hold: a vote given to an agreement does not fail |
| Consensus.RunAnswers | src/subset/proposal_state.rs:89-135 | in every such run, what a subset has noted as accepted, rejected or received is what the agreements decided and the broadcasts output at its node |
| Consensus.SubsetAgreement | src/subset/mod.rs:9-11 | over any runs of the agreement and the broadcast for each proposer: the subsets of two correct nodes, once done, have output the same |
| Consensus.BatchesAgree | src/honey_badger/mod.rs:3-9 | over any such runs for each epoch: two correct nodes output the same batch for every epoch that both have closed |
| Consensus.BatchesAreAgreed | src/honey_badger/mod.rs:3-9 | over any such runs: every batch has the contributions of at least `N - f` proposers, counting those that cannot be read; each is one that its agreement has decided for and its broadcast has output |
| Consensus.CorrectContribution | src/honey_badger/mod.rs:3-9 | over any such runs: what a batch has of a correct proposer is what it has proposed, below 2^32 bytes |
| Polynomials.TooManyRoots | src/sync_key_gen.rs:451-453 | a polynomial with as many roots as coefficients is zero |
| Polynomials.NoCoefficients | src/sync_key_gen.rs:451-453 | if these roots are the points of the nodes, all its coefficients are zero |
| Polynomials.InterpolateHits | src/sync_key_gen.rs:451-453 | interpolation hits every sample |
| Polynomials.InterpolationIsUnique | src/sync_key_gen.rs:451-453 | enough samples of a polynomial give that polynomial |
| Polynomials.Symmetric | src/sync_key_gen.rs:158-170 | a symmetric bivariate polynomial does not depend on the order of its variables |
| SyncKeyGenObject.SyncKeyGen.HandlePart | src/sync_key_gen.rs:372-392 | a valid row is answered with an ack that encrypts one value of it for each node |
| SyncKeyGenObject.SyncKeyGen.HandlePartOrFault | src/sync_key_gen.rs:481-512 | every fault is found in the order of the code; the commitment is stored even if our row is bad |
| SyncKeyGenObject.SyncKeyGen.HandleAck | src/sync_key_gen.rs:398-404 | acks of unknown senders are an error, and others valid or at fault |
| SyncKeyGenObject.SyncKeyGen.HandleAckOrFault | src/sync_key_gen.rs:515-547 | every fault is found in the order of the code; an ack counts even if our value is bad, and the value only if it matches the commitment |
| SyncKeyGenObject.SyncKeyGen.CountComplete | src/sync_key_gen.rs:416-421 | the number of complete parts |
| SyncKeyGenObject.SyncKeyGen.IsNodeReady | src/sync_key_gen.rs:424-428 | whether the part of a node is complete |
| SyncKeyGenObject.SyncKeyGen.IsReady | src/sync_key_gen.rs:431-433 | whether more than `t` parts are complete |
| SyncKeyGenObject.SyncKeyGen.Generate | src/sync_key_gen.rs:444-462 | the loop adds up the public rows of the complete parts, and our column of each at zero |
| SyncKeyGenFaults.PartValidIff | src/sync_key_gen.rs:481-512 | a part is valid exactly if it has a row for each node, does not contradict an earlier one, and, the first time, has the row that its commitment promises us; exactly then validators ack it; and the first part with enough rows is stored |
| SyncKeyGenFaults.PartFaults | src/sync_key_gen.rs:481-512 | each fault of a part means what it says |
| SyncKeyGenFaults.AckValidIff | src/sync_key_gen.rs:515-547 | an ack is valid exactly if it has a value for each node, is for a part that is there, and, the first time, has the value that the commitment promises us; it counts in any case, and its value exactly if it is right |
| KeyShares.PublicAgreement | src/sync_key_gen.rs:21-26 | nodes with the same log agree on the complete parts and on the public key set, observers included |
| KeyShares.CorrectAckAccepted | src/sync_key_gen.rs:515-547 | an ack of a correct node is accepted by every validator, and its value is kept |
| KeyShares.CorrectPartAccepted | src/sync_key_gen.rs:323-359 | a part of a correct node is valid for everyone, and every validator acks it |
| KeyShares.AckedPartCompletes | src/sync_key_gen.rs:275-277 | a part with the acks of more than `2 t` correct nodes in the log is complete for everyone |
| KeyShares.EnoughValues | src/sync_key_gen.rs:163-168 | for every log with at most `t` faulty nodes, a complete part has brought more than `t` verified values to every validator |
| KeyShares.ColumnIsCommitted | src/sync_key_gen.rs:451-453 | from them it gets its column at zero, as committed, if the row is that of a polynomial of degree `t` at these points |
| KeyShares.KeyShareCorrectness | src/sync_key_gen.rs:444-462 | for every log whose complete parts meet this, the share of every validator is the public polynomial at its index |
| KeyShareDegrees.SharesMatchIff | src/sync_key_gen.rs:444-462 | for a commitment of a faulty dealer and all logs in which it is the only complete part: the shares fit in all of them exactly if the rows of the commitment are of degree `t` at zero and at the points of the nodes |
| KeyShareDegrees.DegreeIsTheCondition | src/sync_key_gen.rs:481-512 | with fewer powers than nodes, this is so exactly if no coefficient above `t` is other than zero, which is the check that is missing |
| KeyShareDegrees.HighDegreeCanMatch | src/sync_key_gen.rs:481-512 | with as many powers as nodes the degree does not decide: a commitment of degree 4 for threshold 1 and three nodes with which the shares always fit |
| KeyShareDegrees.FitsAtZero | src/sync_key_gen.rs:515-547 | the logs that show it: `t` faulty nodes ack with junk, so that all values come from `t + 1` chosen nodes |
| KeyShareDegrees.OnePartIsLog | src/sync_key_gen.rs:372-404 | in them every correct node sends the ack that the code makes it send |
| KeyShareDegrees.DegreeMatters | src/sync_key_gen.rs:444-462 | a concrete log with four nodes, one of them faulty, and a wrong share |
| MasterSecrets.SameSecret | src/sync_key_gen.rs:163-170 | for every log under which the shares fit, all sets of more than `t` validators interpolate the same secret |
| MasterSecrets.MasterSecret | src/sync_key_gen.rs:163-170 | for every such log, this is the secret behind the public key exactly if the public key looks like one of degree `t` at zero, too; as it does if complete parts have fewer powers than there are nodes |
| MasterSecrets.SecretCanDiffer | src/sync_key_gen.rs:163-170 | a log with three validators, one of them faulty, for threshold 1, whose shares fit, and whose secret is not the one behind the public key |
| MasterSecrets.PublicRowLooksLow | src/sync_key_gen.rs:158-170 | if the rows of a commitment at the nodes are of degree `t`, then so is the public row, at the points of the nodes |
| VotesObject.VoteCounter.SignVoteFor | src/dynamic_honey_badger/votes.rs:46-61 | our new vote has the next number and replaces the pending one |
| VotesObject.VoteCounter.AddPendingVote | src/dynamic_honey_badger/votes.rs:64-85 | new pending votes are those of the specification, and there is a fault exactly for new votes of this era with bad signatures |
| VotesObject.VoteCounter.AddCommittedVotes | src/dynamic_honey_badger/votes.rs:99-112 | the loop adds each vote, and reports those that are neither superseded nor valid when it is their turn |
| VotesObject.VoteCounter.AddCommittedVote | src/dynamic_honey_badger/votes.rs:115-135 | a fault exactly for votes that are neither superseded nor valid |
| VotesObject.VoteCounter.ComputeWinner | src/dynamic_honey_badger/votes.rs:138-149 | the counting loop finds the first change with more than `f` votes |
| VotesSpec.WinnerIff | src/dynamic_honey_badger/votes.rs:138-149 | there is a winner exactly if some change has more than `f` votes, and it has them |
| VotesSpec.CommittedAreSigned | src/dynamic_honey_badger/votes.rs:115-135 | after any votes, every committed one was committed before, or is among them in the name of its voter, for this era, and signed with the key of its voter |
| VotesSpec.PendingAreSigned | src/dynamic_honey_badger/votes.rs:64-85 | a received vote becomes pending exactly if it is signed with the key of its voter, for this era, and has a higher number than the one before |
| VotesSpec.FaultsAreCounted | src/dynamic_honey_badger/votes.rs:99-112 | there is one fault for each vote that is neither superseded nor signed by its voter for this era, when it is its turn |
| VotesSpec.HighestVoteStays | src/dynamic_honey_badger/votes.rs:115-135 | after any votes, no voter has a vote with a lower number than before, or than any of these votes that it has signed for this era |
| VotesSpec.ProposedVoteCounts | src/dynamic_honey_badger/votes.rs:89-95 | exactly the pending votes that are newer than the committed ones are proposed; once such a vote is committed, it counts, and is no longer pending |
| VotesSpec.NewVoteReplaces | src/dynamic_honey_badger/votes.rs:46-85 | a new vote of a validator is signed with its key, has the next number, and replaces its old one with every peer |
| DhbObject.DynamicHoneyBadger.ProcessOutput | src/dynamic_honey_badger/dynamic_honey_badger.rs:316-391 | batches are processed in order, each with its votes, key generation messages and change, until one fails; then nothing is returned, and the fields keep what has been done |
| DhbObject.DynamicHoneyBadger.HandleKeyGen | src/dynamic_honey_badger/dynamic_honey_badger.rs:440-485 | a part or an ack goes to the key generation that is running; a sender that is not one of the new validators ends the call |
| DhbObject.DynamicHoneyBadger.ApplyChange | src/dynamic_honey_badger/dynamic_honey_badger.rs:356-379 | a finished key generation is applied before a winner of the votes is looked for |
| DhbObject.DynamicHoneyBadger.UpdateKeyGen | src/dynamic_honey_badger/dynamic_honey_badger.rs:402-425 | only a different set of validators restarts the key generation |
| DhbObject.DynamicHoneyBadger.TakeReadyKeyGen | src/dynamic_honey_badger/dynamic_honey_badger.rs:505-515 | takes the key generation exactly if it is ready |
| DhbObject.DynamicHoneyBadger.RestartHoneyBadger | src/dynamic_honey_badger/dynamic_honey_badger.rs:428-437 | a new era starts without votes |
| DhbReplication.ReplicatedDeterminism | src/dynamic_honey_badger/dynamic_honey_badger.rs:316-391 | two nodes with any identities and secrets, fed the same batches in the same calls, stay equal in era, votes, commitments, acks, validators and public keys, and output pairwise equal batches |
| DhbReplication.BatchSame | src/dynamic_honey_badger/batch.rs:109-120 | one batch keeps this, with the equality for batches that the code defines |
| DhbDivisions.DivisionsAgree | src/dynamic_honey_badger/dynamic_honey_badger.rs:316-391 | so do two nodes that divide the same batches into calls in any two ways, if no batch fails; and then every batch is output |
| DhbDivisions.DivisionMattersIff | src/dynamic_honey_badger/dynamic_honey_badger.rs:316-391 | two such nodes can output different batches exactly if some batch is bad, in the state that those before it lead to, and in some division something is output |
| DhbDivisions.NodesDiffer | src/dynamic_honey_badger/dynamic_honey_badger.rs:316-391 | two nodes, equal in public, with the same two batches, of which one outputs the good one and the other nothing, whichever batch comes first |
| DhbReplication.BatchEpochs | src/dynamic_honey_badger/dynamic_honey_badger.rs:326-388 | a batch counts its epoch from its era, and a new era starts right after it, without votes; a batch reports the validators and the schedule that are in force after it |
| DhbReplication.ChangeMeans | src/dynamic_honey_badger/dynamic_honey_badger.rs:356-379 | the change that a batch reports is what has happened: nothing has won; key generation for a winner with more than `f` votes is running, and goes on if it was; or the change is in force |
| DhbVotes.ElectionsAreSigned | src/dynamic_honey_badger/votes.rs:115-157 | in every call that does not fail, from any state without votes on: when a batch starts or completes a change that is voted for, more than `f` of the validators have signed a vote for it with their own keys in this era, in this batch or an earlier one; no proposer can add to them |
| DhbVotes.CallCarries | src/dynamic_honey_badger/dynamic_honey_badger.rs:326-391 | in every such call: each batch has contributions of exactly the proposers of the batch of Honey Badger that it comes from, and those that they have proposed |
| DhbFailures.BatchFailsIff | src/dynamic_honey_badger/dynamic_honey_badger.rs:326-391 | handling a batch is an error exactly if it contains a key generation message that counts before the batch and whose sender is a validator that is not among the new ones; and otherwise a panic exactly if its votes end with a majority for an empty network |
| DhbFailures.CallIsLostIff | src/dynamic_honey_badger/dynamic_honey_badger.rs:316-391 | a call returns nothing exactly if this is so for any of its batches, in the state that those before it lead to; otherwise every batch is output, as if it were handled on its own |
| DhbFailures.BatchesAreLost | src/dynamic_honey_badger/dynamic_honey_badger.rs:316-391 | four validators vote to remove one of them, and lose the next batch, which contains a part that the leaving one has signed, and in the same call a good batch before or after it |
| DhbKeys.HandleKeyGenReplays | src/dynamic_honey_badger/dynamic_honey_badger.rs:440-485 | a message that is handled extends the log of the key generation by one entry |
| DhbKeys.IndicesAreOrdered | src/sync_key_gen.rs:406-412 | senders enter the log by their position among the new validators: in their order, and no two alike |
| DhbKeys.ReadyIff | src/dynamic_honey_badger/mod.rs:177-181 | the key generation ends exactly if the parts of more than two thirds of the new validators have more than `2 t` acks each |
| DhbKeys.OutputReplays | src/dynamic_honey_badger/dynamic_honey_badger.rs:316-391 | after any batches, the key generation of a node has handled exactly the committed messages since it started, in order |
| DhbKeys.LogsAgree | src/dynamic_honey_badger/dynamic_honey_badger.rs:316-391 | for nodes that are equal in public this is the same log |
| DhbKeys.NewKeysMatch | src/dynamic_honey_badger/dynamic_honey_badger.rs:356-362 | when batches complete a change of the validators, the share of each new validator matches the new public key set, which is that of the log |
| DhbParticipants.DropEndsEra | src/sender_queue/dynamic_honey_badger.rs:26-44 | what a batch reports to the sender queue are the validators and candidates after it, and if these change, it is the last batch of its era |
| DhbParticipants.DropsEndEras | src/dynamic_honey_badger/dynamic_honey_badger.rs:402-437 | in every run without failures, a node has left the era of every batch that dropped a participant |
| DhbParticipants.AnnouncementsAreEpochs | src/dynamic_honey_badger/dynamic_honey_badger.rs:356-437 | for two nodes with the same batches: the epochs that one announces are never beyond one in which the other has dropped a participant and in the same era |
| SenderQueueObject.SenderQueue.Build | src/sender_queue/mod.rs:436-449 | a new sender queue has no queued messages, and announces its epoch to all |
| SenderQueueObject.SenderQueue.Apply | src/sender_queue/mod.rs:217-226 | a step of the algorithm is announced, its participants are taken over, and its messages are split by what each peer can handle |
| SenderQueueObject.SenderQueue.HandleEpochStarted | src/sender_queue/mod.rs:229-243 | an announced epoch is noted if it is newer, and its sender is removed or sent what is due |
| SenderQueueObject.SenderQueue.ProcessNewEpoch | src/sender_queue/mod.rs:246-263 | what is due is sent by ascending epochs, except obsolete messages |
| SenderQueueObject.SenderQueue.UpdateEpoch | src/sender_queue/mod.rs:276-329 | the loop takes over every change of the participants, and announces the epoch unless we are removed |
| SenderQueueObject.SenderQueue.DeferMessages | src/sender_queue/mod.rs:335-346 | accepted messages are returned, premature ones queued under their first epoch, obsolete ones dropped |
| SenderQueueObject.SenderQueue.DeferMessage | src/traits.rs:249-290 | a message to all is sent as one if all can handle it, and is otherwise split by peer |
| SenderQueueObject.SenderQueue.RemoveParticipantIfOld | src/sender_queue/mod.rs:366-388 | a scheduled peer is removed with its queue when it and we have left its last epoch behind |
| SenderQueueLedger.Conservation | src/sender_queue/mod.rs:217-388 | in every run, for every message and tracked peer: sent by the algorithm = passed on + queued + dropped because the peer would discard it as late + dropped with the peer; and every queue holds only messages for later epochs than the peer's, under their first epoch |
| SenderQueueLedger.DeferBalances | src/traits.rs:249-290 | one split keeps this balance, for messages to one peer or to all |
| SenderQueueLedger.AnnouncedBalances | src/sender_queue/mod.rs:229-263 | one announced epoch keeps this balance |
| SenderQueueLedger.SortedAsReceived | src/sender_queue/dynamic_honey_badger.rs:50-76 | for every message and epoch: the sender holds a message back exactly if a receiver in this epoch reports it as too early, and drops it exactly if the receiver discards it as late |
| SenderQueueLedger.SentAsReceived | src/traits.rs:249-290 | what a call sends to a tracked peer is passed on exactly if the peer handles it in its recorded epoch, queued exactly if it would be too early, and dropped exactly if it would be discarded as late |
| SenderQueueOrder.SentInOrder | src/sender_queue/mod.rs:217-226 | and it is passed on in the order in which it was sent, after our own announcement, or appended in this order to the queue for its epoch |
| SenderQueueLedger.FlushedAsReceived | src/sender_queue/mod.rs:246-263 | when a peer announces an epoch and stays, exactly the queued messages for epochs up to this one leave the queue, and they are sent, except those that it would discard as late |
| SenderQueueOrder.FlushedInOrder | src/sender_queue/mod.rs:246-263 | then what is due is sent by ascending epochs, and within an epoch in the order in which it was queued |
| SenderQueueLedger.EmittedIsAccepted | src/sender_queue/dynamic_honey_badger.rs:50-76 | what is passed on to a tracked peer is something that a node in its announced epoch handles |
| SenderQueueLedger.DropReason | src/sender_queue/mod.rs:366-388 | whenever messages are dropped with their recipient, both it and we are past its last epoch: the one it is scheduled for, or that of a batch that has just dropped it |
| SenderQueueLedger.EpochIsAnnounced | src/sender_queue/mod.rs:276-329 | a call announces the epoch of the algorithm, to all, exactly if it has returned a batch and we are not removed or are being dropped by it; nothing else is ever announced |
| SenderQueueLedger.RemovedIff | src/sender_queue/mod.rs:276-388 | we are removed exactly if a batch drops us and our algorithm is past its epoch; and from then on nothing changes and nothing is sent |
| SenderQueueLedger.LatestIsRecorded | src/sender_queue/mod.rs:229-243 | a peer that stays is recorded with the latest epoch that it has announced |
| SenderQueueLedger.OwnEpochIsRecorded | src/sender_queue/mod.rs:217-226 | our own epoch is always that of the algorithm, also after an error |
| SenderQueueRuns.DroppedForGood | src/sender_queue/mod.rs:51-57 | in every run in which batches that drop a peer end their eras: a message of any kind that is dropped with the peer is for epochs after its last one, or would be discarded as late |
| SenderQueueMembers.ParticipantsChanged | src/sender_queue/mod.rs:286-318 | after a change every new participant is tracked and no longer scheduled for removal, every old one is scheduled or gone, and for all others nothing has changed |
| SenderQueueRuns.LeavesExactly | src/sender_queue/mod.rs:356-388 | in every such run: a peer that is scheduled for removal is removed with its queue exactly when it announces an epoch after its last one, and until then it is tracked and sent what is due |
| DhbQueue.RunsAreOrderly | src/sender_queue/dynamic_honey_badger.rs:26-44 | every run of Dynamic Honey Badger behind a sender queue, in which no batch fails, is such a run, for every peer that handles the same batches, in any calls |
| DhbQueue.DroppedForGood | src/sender_queue/mod.rs:51-57 | so for Dynamic Honey Badger: a message that is dropped with a peer is for epochs after its last one, or would be discarded as late |
| DhbQueue.LeavesExactly | src/sender_queue/mod.rs:356-388 | and a peer that is scheduled for removal is removed exactly when it announces an epoch after its last one, and until then it is tracked and sent what is due |
| DhbQueue.NewEpochIsAnnounced | src/sender_queue/mod.rs:320-329 | and whenever a node of Dynamic Honey Badger comes into a new epoch, this is announced to all, unless it is removed; and once more in the call that removes it |
| SenderQueueNetwork.NoEarlyMessage | src/dynamic_honey_badger/dynamic_honey_badger.rs:201-226 | in every run of correct nodes with sender queues, from their first announcements on, a message to a tracked correct node never comes too early, whenever it arrives |
| SenderQueueNetwork.RunInv | src/sender_queue/mod.rs:276-329 | no correct node is ever believed to be in a later epoch than it is |
| NetworkDimensions.ComputeSucc | hbbft_testing/src/proptest.rs:88-98 | the next dimension, without overflow, for all but the largest |
| NetworkDimensions.SuccIsNext | hbbft_testing/src/proptest.rs:88-98 | nothing lies between a dimension and its successor |
| NetworkDimensions.MaxSum | hbbft_testing/src/proptest.rs:219-223 | the largest `k` such that the numbers up to `k` add up to no more than `n`, without overflow |
| NetworkDimensions.FromNumber | hbbft_testing/src/proptest.rs:199-213 | a valid dimension for every number below the count, without overflow or truncation |
| NetworkDimensions.Bijection | hbbft_testing/src/proptest.rs:171-213 | the two conversions are inverse to each other |
| NetworkDimensions.OrderIso | hbbft_testing/src/proptest.rs:171-195 | they keep the order by size and faults, in both directions |
| NetworkDimensions.SuccIsPlusOne | hbbft_testing/src/proptest.rs:88-98 | the successor has the next number |

## Left out

- Binary Agreement: that it terminates with probability one. For the code it does not, since networks
  can stall (`BinaryAgreementStallRun.NetworkStalls`). That a round is missed in the sense of
  `BinaryAgreementStall.StuckOnlyInConfRound` in some run is not shown.
- BinaryAgreementLiveness.NothingIsLost: messages of past epochs, which are dropped. When an epoch moves
  on while its queue is being handled, the rest of the queue is dropped, with any `Term` in it.
- Binary Agreement: the two unused bits of a `Conf` message; it carries a set of booleans.
- BinaryAgreementObject.BinaryAgreement.HandleMessage: senders are validators, as
  `src/honey_badger/honey_badger.rs:101` checks before.
- BinaryAgreementObject.BinaryAgreement.HandleTerm: the same.
- BinaryAgreementObject.BinaryAgreement.HandleCoin: the same.
- BinaryAgreementObject.BinaryAgreement.UpdateEpoch: the queue of an epoch is flattened into one
  list first, where the code has two nested loops over the same messages.
- Threshold signatures: setting the document after shares have arrived. The coin never does.
- Errors of cryptography and serialisation that the ideal forms cannot have.
- BroadcastSafety.Totality: only if all nodes with enough leaves decode alike, since it is false
  otherwise (`BroadcastTotality.TotalityIff`).
- KeyShares.KeyShareCorrectness: only for commitments whose rows look like those of degree `t`. The
  code does not check this, and `KeyShareDegrees.SharesMatchIff` shows that it is needed.
- KeyShares.ColumnIsCommitted: the same.
- MasterSecrets.MasterSecret: only for logs under which the shares fit, for the same reason.
- MasterSecrets.SameSecret: the same.
- DhbKeys.NewKeysMatch: only for such commitments, and when at most `f` of the new validators are
  faulty.
- Secrecy of keys, payloads and coin values.
- SubsetObject.Subset.Propose: the messages and faults that are passed on from the broadcast. The
  sub-protocols are proved separately, and enter as their answers; `Consensus` puts them together.
- SubsetObject.Subset.Handle: the messages and faults of the sub-protocols.
- SubsetRuns.RunInv: a vote given to an agreement does not fail. Over runs of Binary Agreement it
  does not (`Consensus.AnsweredSucceeds`). If it did, outputs of the same call would be lost, and
  `N - f` could be passed without votes.
- SubsetRuns.Agreement: for nodes whose sub-protocols agree, as those in `Consensus` do.
- HoneyBadgerRuns.Agreement: for nodes whose subsets agree, as those in `Consensus` do.
- EpochStateObject.EpochState.ProcessSubset: ciphertexts, which start a threshold decryption, and
  the faults for bad ones.
- EpochStateObject.EpochState.HandleDecryptionShare: without encryption, shares are not checked.
- HoneyBadgerObject.HoneyBadger.HandleMessage: what the sub-protocols of the epoch return is a
  parameter.
- Honey Badger with encryption: threshold decryption, and when a batch completes.
- Honey Badger: its input, which enters as events of the current epoch.
- DhbObject.DynamicHoneyBadger.ProcessOutput: the messages, faults and buffers of a node, which
  differ between nodes; the inner Honey Badger, whose batches are the input.
- DhbObject.DynamicHoneyBadger.HandleKeyGen: the key generation is a value here, not an object; the
  ack that is sent and the faults.
- DhbObject.DynamicHoneyBadger.UpdateKeyGen: the part that is sent.
- DhbObject.DynamicHoneyBadger.RestartHoneyBadger: the message buffer and the inner instance.
- DhbReplication.ReplicatedDeterminism: with the batches in the same calls, since it is false
  otherwise (`DhbDivisions.DivisionMattersIff`).
- Dynamic Honey Badger: what a node does after a panic. Here its run ends.
- Dynamic Honey Badger: joining by a `JoinPlan`.
- Sender queue: restarting a removed node, the variants for the other algorithms, and messages to
  peers that are not tracked.
- SenderQueueRuns.DroppedForGood: batches that drop the peer end their eras, and the peer announces
  epochs that exist, as with Dynamic Honey Badger (`DhbQueue.RunsAreOrderly`). A faulty peer may
  lose messages to itself.
- SenderQueueRuns.LeavesExactly: the same.
- DhbQueue.RunsAreOrderly: no batch fails. If one does, the queue is not told of the participants.
- SenderQueueNetwork.NoEarlyMessage: the recipient is tracked by the sender, and the epoch of the
  algorithm never goes back.
- NetworkDimensions.FromNumber: numbers beyond the largest dimension, for which the code truncates
  or overflows.
- Queueing Honey Badger, the transaction queue, the test network, builders and error types.
