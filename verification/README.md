# Veil: a model of the protocol's core, proved in Dafny

Veil keeps value in shielded notes. A core contract holds an incremental Merkle tree of note commitments, a set of spent and
a set of locked nullifiers; a batch-auction pool and a lending module act on it; an association-set provider gates entry;
wallets, a committee and an indexer compute off chain what the contracts and circuits check. This project models that logic
and proves what it keeps, module by module and over whole runs of the deployed system.

`dafny verify dfyconfig.toml` checks everything.

## How the model is organised

- **Trees.** `SparseTree` is the contract's tree (an absent node is 0 at every height) and `FullTree` the client's and
  indexer's (an empty subtree is the zero hash of its height); `TreeAgreement` says exactly when their roots agree.
  `SparseProof`, `ClientMerkle` and `Indexer` are the three off-chain builders.
- **Entry gate.** `BigEndian`, `AspGate`, `Admission`, `EntrySafety`: byte order, the provider's history and checks, the
  client's witnesses, and what an accepted witness says about the trees behind its roots.
- **Circuits.** `Field` holds the scalar field and the comparator contracts; `BatchCircuit`, `Liquidity`, `LendCircuit`,
  `NoteCircuit` and `TransferCircuit` are constraint systems over it together with their meaning over the integers.
  `Clearing` is the committee's loop, `ReserveRun` the reserves over whole runs.
- **Contracts.** Each contract is a class over its storage (`VeilCore`, `AmmPool`, `Lending`, `AspGate.Asp`), and each entry
  point is proved against a function from state to result (`CoreState`, `AmmState`, `LendState`): on success the new state
  and value, on an error the error and the old state, since the host rolls back the call with its sub-calls. The classes
  carry the invariants of `BatchInvariant` and `LoanInvariant`.
- **Runs.** `System` is the transition system of the core, the pool and the lending module over those functions, driven by
  any sequence of calls. `BatchSafety`, `LoanSafety`, `ReserveSafety`, `OrderSafety` and `Membership` prove invariants and
  trace properties of every run by induction; `Conservation` says what the notes that calls spend and create hold, `Outcomes`
  exactly when each entry point succeeds and what it then leaves, `Refusals` which error it answers with otherwise.
  `SmallDeployment` is a deployment whose verifier accepts exactly what the circuits prove, and no deposits; `RefundedSale`,
  `LeafReuse`, `DoubledTransfer` and `Aliases` are runs of it that the documentation excludes, and `LeafSafety` says under
  which checks it is right. `NamedGate` is about the contract that a deposit names.
- **Bytes and wallet.** `VkBytes`, `G1Negation`, `CoinSelection` (with `Sorting`).

Assumptions, always as explicit hypotheses of the lemmas that need them: the hash of a tree is a parameter, and only the
lemmas that speak about the notes behind commitments assume binding hashes (`Notes.Binding`; `Notes.BindingTree`, which by
`BindingHashes.BindingTreeIff` is having no collision; hash values are unbounded numbers so that this is satisfiable, as
`BindingHashes.AssumptionsAreSatisfiable` shows). The verifier and the tree hash read a number as a field element through
`Hashes.read`, about which only this is assumed: numbers below the order and outputs of the hashes are read as themselves
(`Notes.Reads`). A number that is read as itself is canonical; others may be read like a canonical one, as when inputs are
reduced, or stay apart from all, as when such inputs are refused. An accepted proof has a witness for its inputs as they are
read (`SoundPool`, `SoundOrders`, `SoundLending`, `SoundTransfers`), and, where a claim is shown to succeed, what a circuit
proves has an accepted proof (`LeafReuse.CompleteClaims`, met by `LeafReuse.DeploymentIsComplete`); no note lies under the
initial root (`Membership.EmptyRootHoldsNoNote`). Runs let the administrator give LOCK to the lending module only, and let
nobody but a contract's own code speak in that contract's name (`System.Permitted`). The circuits' results hold over any
field whose order exceeds 2^230 (`Field.FieldOrder`), BN254's being the one in use. `EntrySafety` assumes no binding, which
hashes of 32 bytes cannot have, but speaks of paths without a collision. What a call reads from outside (ledger number, time,
oracle feeds, the entry gate's answer) is a parameter.

## Where the code and its documentation differ

The model follows the code.

- `refund_order`'s comment and line 58 of docs/SECURITY.md say that an order cannot be both settled and refunded. Settlement
  does not read the refund marks, so this holds only in one direction; `BatchSafety.ExclusiveIff` gives the exact condition
  and `RefundedSale.RefundedOrderCanBeSettled` a run that violates it although every proof in it is of a satisfied circuit.
- README.md line 92 says that the two nullifier sets prevent double spends and spending collateral that backs a loan, lines
  47-48 of docs/SECURITY.md and 17-18 of docs/CIRCUITS.md call the nullifier unique per note, and
  circuits/lib/nullifier.circom calls it deterministic per note. It hashes a leaf index that no circuit compares with the
  membership path (for example circuits/lend.circom lines 83-96), so a note has one nullifier for each index
  (`NoteCircuit.AnyIndexProves`, `NoteCircuit.NullifiersAgreeIff`), can always be claimed again (`LeafReuse.LoanOpensAgain`,
  `LeafReuse.OrderIsTakenAgain`), and can back two loans and two orders at once (`LeafReuse.OneNoteIsClaimedFourTimes`) or be
  both inputs of one transfer (`DoubledTransfer.OneNoteIsSpentTwice`), so that the conservation that line 30 of
  docs/M1_PLAN.md asks for (`Conservation.TransferConserves`) counts a note once per nullifier. What the contracts guarantee
  is per recorded number (`System.NoDoubleSpend`, `LoanSafety.LockedIsOpenCollateral`), and collateralisation is per loan,
  not per note. Constraining the index to the path is not enough by itself, see the next point.
- Lines 14-15 of docs/CONTRACTS.md say that the verifier reduces or validates field elements on entry. The contracts convert
  the 32 bytes of each input (contracts/veil_core/src/verifier.rs:52-55) and refuse none, while SPENT and LOCKED keep the
  bytes apart; whether the conversion reduces or fails is the host's. If it takes two numbers for one element, each is a
  nullifier of its own: an alias is accepted wherever the nullifier is (`Aliases.AliasOpensLoan`, `Aliases.AliasIsTaken`) and
  backs a second loan on the same leaf even under the index constraint (`Aliases.AliasBacksASecondLoan`). Claims share a leaf
  exactly when their nullifiers are read alike (`LeafSafety.ClaimsShareALeafIff`), so with the index constrained and a check
  that the nullifier is canonical different loans and orders stand on different leaves
  (`LeafSafety.ClaimsStandOnDistinctLeaves`).
- Line 61 of docs/CONTRACTS.md has every deposit pass the provider's check. The contract that answers is an argument of the
  caller, and the provider roots among the public inputs are compared neither with its answer nor with its history: a deposit
  passes the checks of the contract it names (`VeilCore.VeilCore.DepositThrough`), whichever that is
  (`Outcomes.DepositSucceedsIff`). All of them pass the provider's checks exactly when the named contract accepts nothing
  that the provider refuses (`NamedGate.DepositsPassIff`); `NamedGate.RefusedWitnessDeposits` is a deposit that does not.
- Line 183 of docs/CIRCUITS.md and line 155 of docs/M0_PLAN.md have a credential in the blocked set refused. The check
  compares it with two blocked leaves that the caller chooses and that need not be neighbours, so a blocked credential
  between two others enters (`EntrySafety.CanEnterIff`, `EntrySafety.BlockedCredentialCanEnter`), and it does not compare the
  length of a path with the depth of the tree (`EntrySafety.ShortPathProvesNode`).
- Lines 32 and 56 of docs/M4_PLAN.md have an excluded order count for nothing in the sums and become refundable. The circuit
  adds its input to what is paid in (circuits/batch_settle.circom:195-197), where it stays with the pool
  (`Clearing.ExcludedInputStaysInThePool`, `Clearing.SettlementValue`), and a settled batch refuses every refund
  (`Conservation.ExcludedOrderIsNeverRefunded`).
- Line 112 of docs/CIRCUITS.md has a batch conserve its inputs and outputs per asset. The asset of the note sold is in no
  constraint (`NoteCircuit.AnyAssetSells`), so what is conserved is what the notes are sold as
  (`Conservation.SettlementConserves`); that it is what they hold depends on the orders
  (`Conservation.ConservesEachAssetIff`, `Conservation.ThirdAssetIsSold`).
- Line 79 of docs/M5_PLAN.md has a withdrawal of a note that is no share note refused as UnknownLp. The commitment that is
  looked up is an argument of its own, not part of the proof and never consumed, so naming any recorded commitment serves for
  any proof (`ReserveSafety.WithdrawalIgnoresTheNamedShare`).
- The header of client/src/lib/merkle.js says that its parameters match the contract. Its padding does not: whatever binding
  hash is used, the roots differ while two or more leaves are free (`TreeAgreement.RootsAgreeIff`).
- circuits/batch_settle.circom documents a reserve commitment over three values; the constraints hash four. The committee's
  own commitment over three is not part of this model.
- amm_pool's comment says that an inner error of the core's `spend` becomes BadProof; the nesting of the call results makes
  it CoreCallFailed.
- lending's comments say that the oracle's decimals are checked against the feed; only the two prices are.
- circuits/lend.circom calls 160 bits enough; the comparison is exact up to a headroom of 2^160, and a loan with more
  headroom cannot be proved (`LendCircuit.LtvConstraintsMean`, `LendCircuit.AmpleHeadroomIsRefused`).
- The prover computes shares from the first asset alone; the circuit also demands the same floor from the second
  (`Liquidity.ProverSharesAcceptedIff`, `Liquidity.UnevenDepositIsRefused`).
- A clearing that fits 64 bits can still be refused by the circuit, when it would shrink the reserve product
  (`Clearing.ClearingSatisfiesCircuitIff`, `Clearing.ShrinkingClearingIsRefused`).
- A value above every blocked leaf gets upper bound 0 and is refused although it is not blocked
  (`Admission.BuiltWitnessAcceptedIff`, `Admission.ValueAboveAllIsRefused`).

## Model

| member | source | states |
|---|---|---|
| `VeilCore.VeilCore.constructor` | contracts/veil_core/src/lib.rs:736-742 | a fresh core is the empty tree, with the initial root as the only known one and nothing spent, locked or registered |
| `VeilCore.VeilCore.InsertLeaf` | contracts/veil_core/src/poseidon.rs:334-376 | rewriting one path leaves storage equal, node for node, to the recursive sparse tree with the leaf set, returns its root, and changes no node off the path |
| `VeilCore.VeilCore.InsertCommitmentInternal` | contracts/veil_core/src/lib.rs:667-709 | missing ciphertext, then full tree, then one appended leaf; keeps the tree, the last min(n+1, 50) roots and exactly n non-empty ciphertexts; an error changes nothing |
| `VeilCore.VeilCore.InsertCommitment` | contracts/veil_core/src/lib.rs:448-457 | the same behind the INSERT permission |
| `VeilCore.VeilCore.RootIsKnown` | contracts/veil_core/src/lib.rs:289-297 | the scan finds exactly the roots after the first k leaves that fewer than 50 further leaves have followed |
| `VeilCore.VeilCore.RequirePerm` | contracts/veil_core/src/lib.rs:630-638 | passes exactly callers registered with the permission bit |
| `VeilCore.VeilCore.SpendInternal` | contracts/veil_core/src/lib.rs:650-665 | AlreadySpent, then IsLocked, otherwise the nullifier joins SPENT and nothing else changes |
| `VeilCore.VeilCore.Spend` | contracts/veil_core/src/lib.rs:558-576 | the same behind the SPEND permission |
| `VeilCore.VeilCore.Lock` | contracts/veil_core/src/lib.rs:578-595 | Unauthorized, AlreadySpent, AlreadyLocked in that order, otherwise the nullifier joins LOCKED |
| `VeilCore.VeilCore.Unlock` | contracts/veil_core/src/lib.rs:597-609 | Unauthorized or NotLocked, otherwise the nullifier leaves LOCKED |
| `VeilCore.VeilCore.Transfer` | contracts/veil_core/src/lib.rs:466-527 | the specified sequence of checks, spends of non-zero nullifiers and insertions; any error, at whichever step, leaves the whole state as before |
| `VeilCore.VeilCore.Withdraw` | contracts/veil_core/src/lib.rs:372-444 | the same for a withdrawal with optional change |
| `VeilCore.VeilCore.Deposit` | contracts/veil_core/src/lib.rs:301-362 | the answer of the contract that the caller names first, then the proof, then one insertion |
| `VeilCore.VeilCore.BytesToAmount` | contracts/veil_core/src/lib.rs:642-648 | the eight shifts give the 32-byte number modulo 2^64 |
| `VeilCore.VeilCore.DepositThrough` | contracts/veil_core/src/lib.rs:317-328 | a deposit that names a provider enters exactly past that provider's own checks: a valid witness whose pair of roots is among its last 50 |
| `Outcomes.DepositSucceedsIff` | contracts/veil_core/src/lib.rs:301-362 | a deposit succeeds if and only if the named contract accepts, the proof is accepted and the note can be stored; it appends exactly that note, and the provider roots in the public inputs are compared with nothing |
| `Outcomes.BitsGrantOperations` | contracts/veil_core/src/lib.rs:630-638 | insertion, spending, and locking and unlocking are Unauthorized if and only if the caller is not registered with bit 1, 2 or 4 |
| `Outcomes.OneBitGrantsOneOperation` | contracts/veil_core/src/lib.rs:630-638 | registering one of the bits alone authorises its own operation and no other |
| `NamedGate.DepositsPassIff` | contracts/veil_core/src/lib.rs:317-328 | once some deposit can be proved, every deposit that names a contract passes the provider's checks if and only if that contract accepts no witness the provider refuses |
| `NamedGate.RefusedWitnessDeposits` | contracts/veil_core/src/lib.rs:317-328 | a self-made witness that the provider refuses for its roots deposits through another contract of the same code that records them |
| `SparseTree.PresentIff` | contracts/veil_core/src/poseidon.rs:346-370 | a node of the contract's tree exists exactly when a leaf lies below it |
| `SparseTree.OffPathUnchanged` | contracts/veil_core/src/poseidon.rs:346-368 | setting a leaf changes only the nodes above it, which is why one path suffices |
| `SparseTree.ParentWritten` | contracts/veil_core/src/poseidon.rs:362-368 | rehashing one parent brings the next height of storage up to date |
| `SparseTree.StoredNodeHashesChildren` | contracts/veil_core/src/poseidon.rs:356-368 | every stored inner node, on the last path or not, is the hash of its two stored children, an absent one being 0 |
| `SparseTree.KeyInjective` | contracts/veil_core/src/poseidon.rs:323-336 | heap indices of different nodes differ |
| `SparseTree.KeyDecomposition` | contracts/veil_core/src/poseidon.rs:323-336 | every heap index in range belongs to a node |
| `SparseTree.PathFolds` | contracts/asp/src/lib.rs:476-498 | the siblings and side bits above a leaf fold it to the sparse root |
| `SparseTree.FoldProvesMembership` | circuits/lib/merkle_tree_checker.circom:24-43 | conversely, with a binding hash, the leaf at the position of a path that folds a non-zero value to the root is read as that value |
| `SparseTree.RootDeterminesLeaves` | circuits/lib/merkle_tree_checker.circom:24-43 | with a binding hash two trees with the same root have leaves that are read alike at every position below it, an absent leaf as 0 |
| `CoreState.RootStaysKnown` | contracts/veil_core/src/lib.rs:691-697 | the root at some moment is still accepted while fewer than 50 insertions have followed |
| `CoreState.RootIsKnownIff` | contracts/veil_core/src/lib.rs:289-297 | the known roots are those after the first k leaves, for each k that fewer than 50 leaves have followed |
| `Membership.RootsDiffer` | contracts/veil_core/src/lib.rs:683-697 | with a binding hash every insertion gives the tree a root that it has not had before |
| `Membership.RootIsKnownFor50` | contracts/veil_core/src/lib.rs:691-697 | so the root of some moment is known if and only if fewer than 50 insertions have followed it |
| `CoreState.RootWindowPush` | contracts/veil_core/src/lib.rs:691-697 | pushing and popping keeps exactly the last 50 entries of the root history |
| `SparseProof.SparseProof` | e2e-tests/src/amm-spike.test.js:149-175 | for every leaf count, target and depth the level-by-level map gives the contract tree's root, and the target leaf folds to it along the returned path |
| `SparseProof.ParentLevel` | e2e-tests/src/amm-spike.test.js:160-171 | hashing each pair once, in any map order, yields exactly the next level |
| `ClientMerkle.MerkleTree.constructor` | client/src/lib/merkle.js:13-26 | zero hashes, and all levels of the given leaves unless building throws |
| `ClientMerkle.MerkleTree.BuildTree` | client/src/lib/merkle.js:28-51 | for any number of leaves every level equals the full recomputation, and building throws exactly when the leaves overflow the depth and are not a multiple of 2^depth |
| `ClientMerkle.MerkleTree.BuildLevel` | client/src/lib/merkle.js:37-50 | the shortcut past the last non-zero pair gives the same level as hashing every pair; it throws exactly on a level of odd length |
| `ClientMerkle.MerkleTree.GetProof` | client/src/lib/merkle.js:64-78 | the path of any position of level 0, occupied or not, folds to the node above it at the top, which is the root for positions below 2^depth |
| `ClientMerkle.MerkleTree.Insert` | client/src/lib/merkle.js:81-85 | after any insertion that does not throw the tree is again the full recomputation over all leaves |
| `FullTree.EmptySubtree` | client/src/lib/merkle.js:19-23 | a subtree without leaves is the precomputed zero hash of its height |
| `FullTree.PathFolds` | client/src/lib/merkle.js:64-78 | the path of any position folds to the node it ends under |
| `Indexer.ComputeRoot` | indexer/src/index.js:90-120 | below depth 32 the indexer's root is the full tree's, so equal to the client's on the same leaves; from depth 32 on, the deployed one, its first array exceeds the longest that can be allocated and it fails |
| `TreeAgreement.RootsAgreeIff` | client/src/lib/merkle.js:4-7 | under any binding hash the client's and indexer's root is the contract's current root if and only if at most one leaf is free; before the first insertion, if and only if the contract's initial constant is the zero hash of the depth |
| `TreeAgreement.AgreeWhenNearlyFull` | client/src/lib/merkle.js:28-51 | with one free leaf or none the roots agree under every hash, binding or not |
| `AspGate.ComputeMerkleRoot` | contracts/asp/src/lib.rs:476-498 | BadProof on unequal lengths, otherwise the fold of the path, for any length and any index values |
| `AspGate.ByteFoldIsFold` | contracts/asp/src/lib.rs:486-495 | folding 32-byte encodings is folding the numbers |
| `AspGate.Asp.constructor` | contracts/asp/src/lib.rs:349-365 | the history starts with the initial pair |
| `AspGate.Asp.PushHistory` | contracts/asp/src/lib.rs:451-459 | appends a pair and drops the oldest beyond 50 |
| `AspGate.Asp.UpdateApproved` | contracts/asp/src/lib.rs:375-390 | only the operator; records the new approved root with the current blocked one and keeps the history the last 50 recorded pairs |
| `AspGate.Asp.UpdateBlocked` | contracts/asp/src/lib.rs:392-407 | only the operator; records the current approved root with the new blocked one |
| `AspGate.Asp.CheckEntry` | contracts/asp/src/lib.rs:411-447 | accepts if and only if the pair of roots is among the last 50 recorded, every path has a side per sibling, the credential folds to the approved root, both bounds fold to the blocked root, and the credential lies strictly between them |
| `AspGate.CheckWitnessMeans` | contracts/asp/src/lib.rs:424-447 | the same condition without the history |
| `EntrySafety.AcceptedIsApproved` | contracts/asp/src/lib.rs:411-447 | an accepted credential whose path has the depth of the tree is the leaf of the approved tree at the position of the path and lies strictly between two leaves of the blocked tree, unless the tree hash collides on one of the three paths |
| `EntrySafety.CanEnterIff` | contracts/asp/src/lib.rs:411-447 | some witness without collision is accepted for a credential if and only if it is below the approved root and between two values below the blocked root, whether it is blocked itself or not |
| `EntrySafety.BlockedCredentialCanEnter` | contracts/asp/src/lib.rs:500-524 | with 1, 2 and 3 blocked, 2 enters between 1 and 3 |
| `EntrySafety.ShortPathProvesNode` | contracts/asp/src/lib.rs:476-498 | the length of a path is not checked: a shorter one proves an inner node of the tree as a credential |
| `AspGate.WitnessOutlivesUpdates` | contracts/asp/src/lib.rs:451-474 | a witness valid for the current pair passes after any interleaving of fewer than 50 further updates |
| `AspGate.NewestPairIsCurrent` | contracts/asp/src/lib.rs:386-405 | under any interleaving the newest recorded pair is the pair of current roots |
| `BigEndian.LessIsNumeric` | contracts/asp/src/lib.rs:511-514 | the byte-array order of equally long arrays is the order of the big-endian numbers |
| `Admission.Bounds` | client/src/lib/merkle.js:94-105 | the loop ends with the greatest leaf not above the value and the least leaf above it, 0 standing for none |
| `Admission.BuildNonMembershipProof` | client/src/lib/merkle.js:93-121 | both bounds with a path of the tree each, taken at the first occurrence at level 0 or at position 0, which folds to the root whenever the bound occurs below the root |
| `Admission.VerifyBuiltMeans` | contracts/asp/src/lib.rs:500-524 | verification of a built witness compares the bounds with the value and both folded paths with the root |
| `Admission.BuiltWitnessAcceptedIff` | contracts/asp/src/lib.rs:500-524 | a built witness is accepted only if the value is positive, not blocked and below some blocked leaf, in any tree; and for every such value when its bounds are below the root |
| `Admission.ValueAboveAllIsRefused` | client/src/lib/merkle.js:96-105 | with 5 the only blocked leaf, every witness built for 7 is refused, though 7 is not blocked |
| `Admission.BetweenBlockedLeaves` | contracts/asp/src/lib.rs:500-524 | with blocked leaves on both sides, accepted only if the value is not blocked, and in a tree that holds its leaves if and only if; the bounds are the value's neighbours |
| `Admission.BuildEntryWitness` | client/src/features/deposit/useDeposit.ts:98-118 | fails exactly when the credential is not at level 0 of the approved tree; otherwise the witness passes the gate's checks only if the credential lies strictly between blocked leaves or padding, and always then if credential and bounds are below the roots |
| `BatchCircuit.OrderConstraintsMean` | circuits/batch_settle.circom:125-174 | the field constraints of one order hold if and only if amounts are 64-bit, it buys exactly one pool asset, and it is filled at the floor above its minimum or excluded because the minimum is unaffordable |
| `BatchCircuit.ConstraintsMeanSettles` | circuits/batch_settle.circom:57-226 | the whole constraint system over the field is equivalent to a clearing over the integers that conserves both assets and does not shrink the reserve product; no comparator or sum wraps |
| `Clearing.ClearBatch` | tools/committee/index.js:63-132 | the loop's amounts, flags and post-reserves form a clearing of the orders, and with binding hashes commitment j is to a note if and only if the note has the amount of clearing j and the order's asset, blinding and owner; it aborts exactly on a division by a zero price |
| `Clearing.ClearingUnique` | tools/committee/index.js:81-131 | at a fixed price at most one clearing exists |
| `Clearing.ClearingSatisfiesCircuitIff` | circuits/batch_settle.circom:88-92 | a clearing that fits 64 bits satisfies the circuit if and only if the reserve product does not shrink |
| `Clearing.ShrinkingClearingIsRefused` | circuits/batch_settle.circom:88-92 | reserves of 100 each and one order selling 10 at par: the committee's own clearing takes the product from 10000 to 9900 and the circuit refuses it |
| `Clearing.ExcludedInputStaysInThePool` | circuits/batch_settle.circom:166-222 | an order that sells 100 for no less than it can get is excluded and paid nothing, its 100 go to the reserve, and the circuit accepts |
| `Clearing.SettlementValue` | circuits/batch_settle.circom:138-222 | at the clearing price pool value plus fees grows by exactly the rounding and the excluded inputs: at least 0, at most P_out - 1 per filled order plus the value of excluded inputs |
| `Liquidity.AddConstraintsMean` | circuits/add_liquidity.circom:121-184 | the deposit constraints hold if and only if the reserves grow by the deposit and the shares are the first amount or the common floor of both claims |
| `Liquidity.RemoveConstraintsMean` | circuits/remove_liquidity.circom:118-158 | the removal constraints hold if and only if reserves and shares shrink exactly and each payout is the floor of the claim |
| `Liquidity.ProverSharesAcceptedIff` | client/src/prover/lp.js:44-59 | the prover's shares are accepted if and only if it is the first deposit or the second asset's floor is the same |
| `Liquidity.UnevenDepositIsRefused` | client/src/prover/lp.js:44-59 | against reserves of 100 each, 10 and 20 earn different floors and the circuit refuses the prover's shares |
| `Liquidity.ProverPayoutsAreTheOnlyOnes` | client/src/prover/lp.js:122-139 | the removal relation accepts the prover's payouts and no others |
| `Liquidity.MintThenBurnPaysAtMostTheDeposit` | circuits/remove_liquidity.circom:123-158 | minting from a positive total and burning at once returns at most the deposit in each asset |
| `ReserveRun.NeverDecreases` | circuits/batch_settle.circom:88-116 | over any mix of settlements, deposits and withdrawals a*b/shares^2 never falls while shares remain |
| `ReserveRun.BurningAllEmpties` | circuits/remove_liquidity.circom:118-158 | burning all shares leaves both reserves at exactly 0 |
| `LendCircuit.ProductsDoNotWrap` | circuits/lend.circom:106-126 | for 64-bit amounts, non-negative i128 prices and a u32 ratio no field product wraps |
| `LendCircuit.LtvConstraintsMean` | circuits/lend.circom:106-131 | the constraint holds if and only if amounts are 64-bit, the loan is within the ratio and its headroom is below 2^160 |
| `LendCircuit.AmpleHeadroomIsRefused` | circuits/lend.circom:106-131 | a loan of nothing against 2^60 units at a price of 2^100 is within any ratio and refused |
| `NoteCircuit.AnyIndexProves` | circuits/lib/nullifier.circom:18-31 | whoever proves a note proves the same note, by the same path, under the nullifier of every other index |
| `NoteCircuit.NullifiersAgreeIff` | circuits/lib/nullifier.circom:3-8 | two proofs of one note have equal nullifiers if and only if they claim the same index, so a note has as many nullifiers as there are indices |
| `NoteCircuit.AnyAssetSells` | circuits/swap.circom:56-100 | an order can be placed with a note of any asset that holds its amount |
| `LendCircuit.AnyIndexSatisfies` | circuits/lend.circom:83-96 | the whole lending circuit accepts the same loan on the same note under the nullifier of any index |
| `LendCircuit.HealthyIsCollateralised` | contracts/lending/src/lib.rs:409-416 | a loan within the ratio at opening is fully collateralised at every price the health check passes |
| `AmmPool.AmmPool.InitializeReserves` | contracts/amm_pool/src/lib.rs:161-172 | sets both parts of the reserves and nothing else, once, and aborts afterwards |
| `AmmPool.AmmPool.TakeSlot` | contracts/amm_pool/src/lib.rs:244-268 | the next slot of the current batch or BatchFull; the first order, and no other, sets the deadline |
| `AmmPool.AmmPool.SubmitOrder` | contracts/amm_pool/src/lib.rs:212-276 | root, proof, spend, slot in that order; an error after the spend undoes it; keeps the batches well-formed |
| `AmmPool.AmmPool.SettleBatch` | contracts/amm_pool/src/lib.rs:290-380 | the order of the refusals, the proof over the vector of this batch, one insertion per output, then the mark, the counter and the reserves; an error undoes all of it |
| `AmmPool.AmmPool.BuildSettleInputs` | contracts/amm_pool/src/lib.rs:326-354 | on success the result has 2K + 4 entries: the stored hash of each slot, the commitment of each output, the committee's key, the batch's number and the two reserve commitments; it fails exactly on a missing order or an empty ciphertext |
| `AmmPool.AmmPool.InsertOutputs` | contracts/amm_pool/src/lib.rs:356-360 | inserting in slot order succeeds exactly when inserting the whole sequence does |
| `AmmPool.AmmPool.AddLiquidity` | contracts/amm_pool/src/lib.rs:384-441 | checks, optional spends, the share note and the reserve move, or nothing |
| `AmmPool.AmmPool.RemoveLiquidity` | contracts/amm_pool/src/lib.rs:445-506 | checks, the spend, optional payouts and the reserve move, or nothing |
| `AmmPool.AmmPool.RefundOrder` | contracts/amm_pool/src/lib.rs:525-595 | the order of the refusals, then mark and re-mint, or nothing; the mark set before the insertion is undone when that fails; keeps the batches well-formed |
| `Lending.Lending.OraclePriceInternal` | contracts/lending/src/lib.rs:441-461 | a price is returned if and only if the feed has reported one no longer ago than the staleness bound, a report from the future counting as new; it is then the reported price, and otherwise the error says whether there was no report or an old one |
| `LendState.ReadsExactlyFreshPrices` | contracts/lending/src/lib.rs:441-461 | a price is read if and only if it is the last reported one and now is at most its timestamp plus the staleness bound |
| `Lending.Lending.OpenLoan` | contracts/lending/src/lib.rs:200-293 | the order of the refusals, proof over the prices read, lock, insertion and record under the id it returns, or nothing; keeps the locked set equal to the open collateral |
| `Lending.Lending.Repay` | contracts/lending/src/lib.rs:309-362 | proof against the stored commitment, spend, unlock and close, or nothing; keeps the locked set equal to the open collateral |
| `Lending.Lending.Liquidate` | contracts/lending/src/lib.rs:386-437 | overflow, Healthy, otherwise unlock, spend and close, or nothing; keeps the locked set equal to the open collateral and never strands a backed loan |
| `System.PoolCallGrows` | contracts/amm_pool/src/lib.rs:212-595 | no pool call touches LOCKED, the permissions or the loans |
| `System.CoreOnlyGrows` | contracts/veil_core/src/lib.rs:650-709 | between any two moments of any run leaves are only appended, SPENT only grows and stays clear of LOCKED |
| `System.CiphertextsNeverChange` | contracts/veil_core/src/lib.rs:699-700 | in every run a stored ciphertext stays, unchanged and non-empty |
| `System.RootStaysKnownInRun` | contracts/veil_core/src/lib.rs:691-697 | over any mix of calls of all contracts a root stays known while fewer than 50 insertions follow it |
| `System.NoDoubleSpend` | contracts/veil_core/src/lib.rs:650-665 | a number recorded as spent is refused by every later spend and lock; the statement is about recorded numbers, of which a note has many |
| `LoanSafety.LockedIsOpenCollateral` | contracts/lending/src/lib.rs:268-285 | with lending the only holder of LOCK, in every reachable state LOCKED is exactly the collateral of open loans, each open loan has its own, and none of it is spent |
| `LoanInvariant.SeizeSucceedsIff` | contracts/lending/src/lib.rs:420-425 | on an open loan the unlock-then-spend pair fails only if lending lacks a permission |
| `LoanInvariant.LiquidateNeverStrands` | contracts/lending/src/lib.rs:420-425 | while the locked set is the open collateral and the permissions are held, liquidation never fails in the core, so no loan is left that cannot be seized |
| `LoanSafety.LiquidateSucceedsIff` | contracts/lending/src/lib.rs:386-437 | in every reachable state liquidation succeeds if and only if the loan is open, the last report of the named feed is fresh, its price times 10000 is in range and below the opening price times the ratio, and lending has its permissions; it then unlocks and spends the collateral and closes that record alone |
| `LoanSafety.RepaySucceedsIff` | contracts/lending/src/lib.rs:309-362 | in every reachable state repayment succeeds if and only if the loan is open, the root known, the proof accepted, the nullifier neither spent nor collateral and the permissions held; it then spends the nullifier, unlocks the collateral and closes that record alone |
| `LoanSafety.LoanEndsOnce` | contracts/lending/src/lib.rs:428-429 | over a run a loan is repaid or seized at most once in all |
| `LoanSafety.LoansAreBacked` | circuits/lend.circom:76-131 | every loan of every reachable state has a collateral nullifier that is read as one of those of a note in the tree, a borrowed note in the tree, and amounts within the ratio; the note may back other loans under other nullifiers |
| `LoanSafety.HealthyLoansAreCollateralised` | contracts/lending/src/lib.rs:403-416 | whenever liquidate answers Healthy at the price it reads, the notes behind that one loan satisfy borrow * borrow price <= collateral * that price |
| `LeafReuse.OneNoteIsClaimedFourTimes` | circuits/lend.circom:91-96 | for any binding hashes and a verifier that accepts exactly what the circuits prove, a permitted run ends with two open loans at the full ratio and two stored orders, each under another nullifier of the one note at leaf 0 |
| `LeafReuse.LoanOpensAgain` | circuits/lend.circom:91-96 | in every state in which fewer nullifiers are recorded than the field has elements, whoever can prove a loan on a note can open it under a free nullifier of that note, however often the note was pledged or spent |
| `LeafReuse.OrderIsTakenAgain` | circuits/swap.circom:78-86 | the same for selling the note in an order, while the current batch has a slot |
| `LeafSafety.OneNullifierPerLeaf` | circuits/lib/nullifier.circom:18-31 | nullifiers derived for the index of their leaf are read alike if and only if they are of the same leaf |
| `LeafSafety.ClaimsShareALeafIff` | circuits/lend.circom:91-96 | with the index constrained to the path, in every reachable state each open loan and each stored order stands on a leaf, and two of them on the same leaf if and only if their nullifiers are read as one field element |
| `LeafSafety.ClaimsStandOnDistinctLeaves` | circuits/lend.circom:91-96 | with the index constrained and every loan and order naming a nullifier that is the field element it is read as, in every reachable state different open loans and stored orders stand on different leaves |
| `Aliases.AliasOpensLoan` | contracts/veil_core/src/verifier.rs:52-58 | if the verifier sees of its inputs only what they are read as, a loan that opens under a nullifier opens with the same proof under any free number that is read alike |
| `Aliases.AliasIsTaken` | contracts/veil_core/src/verifier.rs:52-58 | the same for an order |
| `Aliases.AliasBacksASecondLoan` | contracts/veil_core/src/lib.rs:578-595 | for any number that is read as the nullifier of a note and differs from it, a permitted run under a verifier of circuits that constrain the index ends with two open loans on one leaf |
| `Aliases.ReductionHasAliases` | contracts/veil_core/src/verifier.rs:54-55 | if inputs are reduced modulo the order, the nullifier plus the order is such a number |
| `Membership.KnownRootHoldsNote` | contracts/veil_core/src/lib.rs:289-297 | the leaf of the core's tree at the position of a path that folds a note to a root the core accepts is read as that note's commitment |
| `BatchSafety.BatchesStayWellFormed` | contracts/amm_pool/src/lib.rs:242-372 | in every reachable state the settled batches are those below the counter and are full, the current one holds a prefix of at most K slots, later ones are empty, deadlines exist exactly for batches with orders, and all orders spent pairwise distinct nullifiers |
| `BatchSafety.PoolOnlyMovesOn` | contracts/amm_pool/src/lib.rs:255-268 | settled and refunded marks, stored orders and deadlines never change once set |
| `BatchSafety.NoRefundAfterSettle` | contracts/amm_pool/src/lib.rs:534-537 | over any run no slot is refunded after its batch settled |
| `BatchSafety.NoSecondSettle` | contracts/amm_pool/src/lib.rs:304-311 | no batch is settled twice |
| `BatchSafety.NoSecondRefund` | contracts/amm_pool/src/lib.rs:551-553 | no slot is refunded twice |
| `BatchSafety.DeadlineIsFromFirstOrder` | contracts/amm_pool/src/lib.rs:255-259 | a stored deadline is 100 ledgers after the call that took slot 0 |
| `BatchSafety.RefundsComeAfterTheDeadline` | contracts/amm_pool/src/lib.rs:539-545 | every refund is preceded by the call that opened its batch, more than 100 ledgers earlier |
| `BatchSafety.ExclusiveIff` | contracts/amm_pool/src/lib.rs:523-524 | over every run no order is both settled and refunded if and only if every settlement that succeeded found its batch free of refund marks |
| `RefundedSale.RefundedOrderCanBeSettled` | contracts/amm_pool/src/lib.rs:304-372 | for any binding hashes and a verifier that accepts exactly what the circuits prove, a permitted run sells a note, refunds the order after its deadline and then settles it: the tree ends with both the note given back and the payment |
| `ReserveSafety.ReservesStep` | contracts/amm_pool/src/lib.rs:326-372 | with a sound verifier any call leaves the committed reserves or moves them by one settlement, deposit or withdrawal |
| `ReserveSafety.CommitmentsFollowARun` | contracts/amm_pool/src/lib.rs:365-372 | the chained reserve commitments of any run of calls are to one run of reserves |
| `ReserveSafety.ValuePerShareNeverFalls` | contracts/amm_pool/src/lib.rs:365-372 | between any two moments of any run a*b/shares^2 of the committed reserves does not fall while shares stay positive |
| `ReserveSafety.LastWithdrawalEmptiesThePool` | contracts/amm_pool/src/lib.rs:445-506 | a withdrawal that commits to zero shares commits to zero reserves |
| `ReserveSafety.SettlementPaysTheOrders` | contracts/amm_pool/src/lib.rs:326-372 | the leaves a settlement appends commit to the amounts of a conserving clearing, at one price, of exactly the orders whose hashes were stored in the batch's slots, each in the asset and to the owner of its order |
| `OrderSafety.OrdersAlwaysSellNotes` | circuits/swap.circom:56-100 | in every reachable state each stored order sells exactly the amount of a note of the tree one of whose nullifiers is spent |
| `OrderSafety.SettlementClearsTheSpentNotes` | contracts/amm_pool/src/lib.rs:330-337 | a settlement clears, for each slot, the amount of the note whose nullifier that slot's order spent |
| `OrderSafety.RefundReissuesTheNote` | circuits/settle_or_refund.circom:53-93 | a refund appends one note of the amount and asset of the note whose nullifier the order spent |
| `TransferCircuit.TransferConstraintsMean` | circuits/transfer.circom:57-94 | without a public amount the field constraints hold if and only if the four amounts are 64-bit, balance as integers, and the notes that are no dummies share one asset |
| `TransferCircuit.WithdrawConstraintsMean` | circuits/withdraw.circom:66-90 | the constraints of a withdrawal hold if and only if the amounts are 64-bit, balance as integers, and the notes that are no dummies have the public asset |
| `Conservation.TransferConserves` | circuits/transfer.circom:57-160 | with a sound verifier and binding hashes the notes a transfer creates hold, of every asset, exactly what the notes of the tree that it spends hold, counted once per nullifier |
| `Conservation.WithdrawalConserves` | contracts/veil_core/src/lib.rs:372-444 | the notes a withdrawal spends hold, of every asset, what the change holds and what the public amount is read as; a public amount below the order of the field is what is paid out |
| `Conservation.TokensMatchIff` | contracts/veil_core/src/lib.rs:642-648 | the tokens moved are the amount the circuit reads if and only if the public amount differs from it by a multiple of 2^64 |
| `Conservation.DepositCreatesItsAmount` | circuits/deposit.circom:57-70 | a deposit appends a note of the 64-bit amount that its public amount is read as |
| `Conservation.LiquidityMintsItsShares` | circuits/add_liquidity.circom:63-150 | a deposit of liquidity spends two notes of the tree whose amounts are what the committed reserves grow by, and the one note it appends has exactly the shares by which the committed total grows |
| `Conservation.LiquidityBurnsItsShares` | circuits/remove_liquidity.circom:59-130 | a withdrawal of liquidity burns one note of the tree, of the shares by which the committed total falls, and appends two notes, of the amounts by which the committed reserves fall |
| `Conservation.SettlementConserves` | circuits/batch_settle.circom:195-222 | in every reachable state, whatever notes open the nullifiers and the appended leaves of a settled batch: for each pool asset, the notes sold for the other and the committed reserve before are the notes paid out, the committed reserve after and a fee |
| `Conservation.ConservesEachAssetIff` | circuits/batch_settle.circom:195-222 | counted by their own assets, the notes of such an exchange conserve each asset if and only if they hold of it what was sold as it, as when each order sells a note of the other pool asset |
| `Conservation.ThirdAssetIsSold` | circuits/batch_settle.circom:125-135 | 100 units of a third asset sold as 100 of the first are balanced and not conserved |
| `Conservation.ExcludedOrderIsNeverRefunded` | contracts/amm_pool/src/lib.rs:534-537 | an order that a settlement excludes is paid nothing and no later call of the run refunds it |
| `DoubledTransfer.OneNoteIsSpentTwice` | circuits/transfer.circom:96-136 | for any binding hashes and a verifier that accepts exactly what the circuits prove, a permitted run transfers a note of 200 out of a tree whose one note holds 100, naming it under two indices |
| `DoubledTransfer.InputsShareALeafIff` | circuits/transfer.circom:96-136 | with the index constrained, the two inputs of a transfer are leaves of the tree, and the same leaf if and only if their nullifiers, which differ, are read alike |
| `OrderSafety.RepaymentSpendsTheBorrowedNote` | circuits/repay.circom:43-75 | the nullifier a repayment spends is read as one of the borrowed note and of no other note |
| `ReserveSafety.WithdrawalIgnoresTheNamedShare` | contracts/amm_pool/src/lib.rs:445-506 | which recorded share commitment a withdrawal names makes no difference to its result, and naming one uses none up: it is tied neither to the proof nor to the shares burned |
| `ReserveSafety.ShareNoteWasMinted` | contracts/amm_pool/src/lib.rs:433-434 | over any run a recorded share commitment was minted by an earlier deposit that succeeded |
| `ReserveSafety.MintedShareStays` | contracts/amm_pool/src/lib.rs:433-461 | a minted share commitment stays recorded whatever is withdrawn later |
| `Outcomes.TransferSucceedsIff` | contracts/veil_core/src/lib.rs:466-527 | a transfer succeeds if and only if the amount is zero, the root known, the proof accepted, the non-zero nullifiers distinct, unspent and unlocked, and the non-zero outputs storable; it then spends exactly those, appends exactly these and returns their indices in order |
| `Outcomes.WithdrawSucceedsIff` | contracts/veil_core/src/lib.rs:372-444 | the same exact condition and effect for a withdrawal |
| `AmmState.InsertAllSucceedsIff` | contracts/amm_pool/src/lib.rs:356-360 | inserting K outputs succeeds if and only if every one has a ciphertext, the caller may insert and all K fit, and appends them in slot order |
| `Outcomes.SubmitSucceedsIff` | contracts/amm_pool/src/lib.rs:212-276 | an order is accepted if and only if root and proof hold, its note is free and the current batch has a slot; it takes the next slot with this record, the first one setting the deadline 100 ledgers on, and its nullifier is spent |
| `Outcomes.SettleSucceedsIff` | contracts/amm_pool/src/lib.rs:290-380 | in every reachable state a settlement succeeds if and only if the batch is the current one and full, its K outputs are storable and the proof is accepted for the vector of exactly this batch; it then appends the outputs, marks the batch, moves the counter on and stores both parts of the reserves; the unwrap of a missing order never aborts |
| `ReserveSafety.SettlementsShareNoInputs` | circuits/batch_settle.circom:9-15 | two settlements that succeed in a run were proved for vectors whose entries for the batch differ |
| `ReserveSafety.NoProofServesTwice` | circuits/batch_settle.circom:9-15 | so the circuit reads different inputs for them |
| `Outcomes.RefundSucceedsIff` | contracts/amm_pool/src/lib.rs:525-595 | in every reachable state a refund succeeds if and only if it names an unrefunded order of the current batch after its deadline, with root, proof and ciphertext; it marks the order, appends the note and returns its index |
| `Outcomes.AddLiquiditySucceedsIff` | contracts/amm_pool/src/lib.rs:384-441 | exact condition of a deposit of liquidity and its whole effect on notes, reserves and share records |
| `Outcomes.RemoveLiquiditySucceedsIff` | contracts/amm_pool/src/lib.rs:445-506 | exact condition of a withdrawal of liquidity and its whole effect on notes, reserves and share records |
| `Outcomes.BorrowSucceedsIff` | contracts/lending/src/lib.rs:200-293 | in every reachable state a loan opens if and only if the claimed prices are the fresh ones read, the proof is accepted for the seven inputs and the collateral is neither spent nor already pledged; it locks exactly that, appends the borrowed note, and records the nullifier, commitment, prices and ratio under the returned id, the least that was free |
| `Refusals.EntryRefusals` | contracts/asp/src/lib.rs:411-447 | UnknownRoot, then BadProof or NotApproved for the credential, IsBlocked outside the bounds, BadProof for either blocked path, IsBlocked for either root, the first that applies |
| `Refusals.ModuleRefusals` | contracts/veil_core/src/lib.rs:448-457 | which error each of the four module calls answers with, and that it succeeds otherwise |
| `Refusals.TransferRefusals` | contracts/veil_core/src/lib.rs:466-527 | which error a transfer answers with: the first of its seven checks that fails, the second nullifier meeting the first among the spent and the second output the first among the leaves |
| `Refusals.WithdrawRefusals` | contracts/veil_core/src/lib.rs:372-444 | the same for a withdrawal |
| `Refusals.DepositRefusals` | contracts/veil_core/src/lib.rs:301-362 | the named contract, then the proof, then the insertion |
| `Refusals.SubmitRefusals` | contracts/amm_pool/src/lib.rs:212-276 | the first of root, proof, spend, slot and deadline overflow that fails gives the error |
| `Refusals.SettleRefusals` | contracts/amm_pool/src/lib.rs:290-380 | the first of the nine checks that fails gives the error, a missing order being an abort |
| `Refusals.AddLiquidityRefusals` | contracts/amm_pool/src/lib.rs:384-441 | the first of root, reserves, proof and core calls that fails gives the error |
| `Refusals.RemoveLiquidityRefusals` | contracts/amm_pool/src/lib.rs:445-506 | the first of share record, root, reserves, proof and core calls that fails gives the error |
| `Refusals.RefundRefusals` | contracts/amm_pool/src/lib.rs:525-595 | the first of the eight checks that fails gives the error |
| `Refusals.OpenLoanRefusals` | contracts/lending/src/lib.rs:200-293 | the first of ciphertext, root, either price missing or stale, price mismatch, proof and core call that fails gives the error |
| `Refusals.RepayRefusals` | contracts/lending/src/lib.rs:309-362 | unknown, closed, root, proof, core calls, the first that fails |
| `Refusals.LiquidateRefusals` | contracts/lending/src/lib.rs:386-437 | unknown, closed, price missing or stale, overflow, Healthy, core call, the first that applies |
| `LoanSafety.ReturnedLoanIsFound` | contracts/lending/src/lib.rs:271-292 | over any run the id that a loan returns was not recorded before, and afterwards holds the nullifier, commitment and prices of that call, so that repaying it finds the loan |
| `LoanSafety.ClosedLoanWasEnded` | contracts/lending/src/lib.rs:345-429 | over any run a loan becomes closed only by a repayment or a seizure of its own id |
| `VkBytes.ParseVk` | contracts/veil_core/src/verifier.rs:86-123 | returns a key exactly when the bytes start with its printed form, so it inverts the printer; every strict prefix of a printed key is refused |
| `VkBytes.PrintPrefixFree` | tools/vk-convert/src/main.rs:105-120 | the layout is injective and prefix-free |
| `VkBytes.ReadBytes64` | contracts/veil_core/src/verifier.rs:125-129 | the 64 bytes at the offset, or MalformedVk |
| `VkBytes.ReadBytes128` | contracts/veil_core/src/verifier.rs:131-135 | the 128 bytes at the offset, or MalformedVk |
| `VkBytes.G1ToBytes` | tools/vk-convert/src/main.rs:62-68 | both coordinates can be read back; panics exactly on a non-affine point or a coordinate over 256 bits |
| `VkBytes.G2ToBytes` | tools/vk-convert/src/main.rs:72-83 | all four coordinates can be read back, the second of each pair first |
| `VkBytes.Convert` | tools/vk-convert/src/main.rs:87-125 | prints the layout of a key holding the JSON's coordinates, or panics exactly when a point is not affine or the count is not nPublic + 1 |
| `G1Negation.SubtractBytes` | contracts/veil_core/src/verifier.rs:160-171 | the loop's bytes are the difference plus 2^256 times the final borrow, which is 1 exactly when y exceeds q |
| `G1Negation.G1Negate` | contracts/veil_core/src/verifier.rs:139-176 | x unchanged, y replaced by q - y modulo 2^256, the point at infinity unchanged |
| `G1Negation.NegYIsFieldNegativeIff` | contracts/veil_core/src/verifier.rs:159-171 | the result is the canonical field negative if and only if 0 < y <= q |
| `G1Negation.NegationIsInvolution` | contracts/veil_core/src/verifier.rs:139-176 | for 0 < y < q the result is q - y and negating twice is the identity |
| `CoinSelection.SelectInputs` | client/src/wallet/selector.js:16-38 | null exactly when no choice of notes of the asset that are neither spent nor pending reaches the target; otherwise such a choice that does, with the right total and change, of the fewest notes possible and the largest of that many |
| `CoinSelection.EligibleCount` | client/src/wallet/selector.js:46-51 | a note is eligible as often as the wallet has it when it is of the asset, not spent and not pending, and otherwise not at all |
| `CoinSelection.BalanceIsLargestChoice` | client/src/wallet/selector.js:40-51 | the balance is the largest sum of any choice of such notes, and some choice has it |
| `CoinSelection.PrefixIsLargest` | client/src/wallet/selector.js:20-34 | no choice of n eligible notes sums to more than the n largest |
| `CoinSelection.CandidatesDescend` | client/src/wallet/selector.js:46-51 | the sorted candidates are the eligible notes and sum to the balance |

## Left out

- The Poseidon permutation, the BN254 group and pairing, and proof generation: the hash is a parameter, a proof check an answer of the verifier.
- The circomlib gadgets: taken by their contracts (n-bit decomposition, comparison, equality); boolean constraints are read as 0 or 1, which uses that the field order is prime.
- Value across the whole note pool: conservation is stated per call and per nullifier, since one note has many nullifiers.
- The constraints of the deposit circuit on the credential: its two roots are compared with nothing (`Outcomes.DepositSucceedsIff`), so only its constraints on the note are modelled.
- The asset ids of reserves and share notes, and those of the notes that liquidity calls spend and create, which the circuits do not tie to the pool's assets.
- Authorisation (`require_auth`), token transfers, events, storage lifetimes, admin hand-over, auditor keys and the storage of verifying keys.
- Counters (`NEXT_INDEX`, `BATCH_SEQ`, `LOAN_SEQ`) are unbounded numbers; the 2^depth bound of the tree and the 32-bit overflow of the batch deadline are modelled.
- Hash values and nullifiers are unbounded numbers in the contracts; 32-byte encodings are modelled where bytes are compared (entry gate, verifying key, negation).
- The constant behind the initial root.
- `initialize` of the pool and of lending: their constructors start from the values it stores; a second initialisation is not modelled.
- The indexer is modelled for rows below 2^depth.
- `getProof` of the browser tree is modelled for positions of level 0, the only ones it is called with; a position beyond them gives undefined entries.
- Iteration order of maps in the off-chain builders: the loops take entries in any order.
- Decimal and JSON parsing of the key converter, its file handling, and the size panic its own arithmetic excludes.
- The prover's serializers (`decToBe32` in client/src/prover) and the construction of proof inputs.
- The committee's commitment over three reserve values, order encryption and the settlement proof it requests.
- User interface, wallet storage, RPC, the indexer's database and HTTP server, and deployment scripts.
- Admission.BuiltWitnessAcceptedIff: acceptance of every value in a gap asks that the bounds are below the root, because otherwise (a full tree with no leaf below the value, or more leaves than the tree holds) the path belongs to another leaf and acceptance would rest on a collision.
- Lending.Lending.Liquidate: the loan stores no asset, so health is stated about the price of whatever feed the call names.
- Lending.Lending.OpenLoan: that the locked set is the open collateral is kept by every entry point, as an implication from before to after, since it depends on no other module holding LOCK; over whole runs it is `LoanSafety.LockedIsOpenCollateral`.
