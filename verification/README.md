# Verified model of the sidechain node's consensus core

This project models, in Dafny, the parts of the node that decide what the chain
is and what the ledger holds: the block archive with its header trees, ancestor
index and table of blind-merged-mining verdicts (BIP 301); the state
transition with its pools, Dutch auctions and registered assets; the drivers
that reorganise the state and follow the mainchain; the mempool; and two small
pieces, the log buffer and coin selection.

Hashes and transaction ids are opaque identifiers. Tables are maps. A write
transaction that is dropped is a state that is not stored: an operation that
fails leaves the fields as they were. Where the original changes tables in
loops there is a class with methods and loops, proved against a function of the
old values; the properties are proved about those functions.

## Files

- `HeaderTree.dfy`, `AncestorIter.dfy`: header trees, the power-of-two ancestor index, common ancestors, batched walks.
- `ArchiveDb.dfy`, `ArchiveSteps.dfy`, `ArchiveBodies.dfy`, `Invalidation.dfy`, `Archive.dfy`, `BmmOrder.dfy`: the archive, its invariant, and independence of arrival order.
- `BetterTip.dfy`, `BetterTipMeaning.dfy`, `BetterTipCircles.dfy`, `BetterTipExample.dfy`: the rule that compares tips, what it decides in terms of ancestors, and when it runs in a circle.
- `Amm.dfy`, `DutchAuction.dfy`, `Rollback.dfy`, `KeyOrder.dfy`, `BitAssets.dfy`, `BitAssetDbs.dfy`, `BitAssetRuns.dfy`: pools, auctions, histories, the byte order of numeric keys, registered assets as values and as tables changed in place.
- `Transactions.dfy`, `Effects.dfy`, `EffectsMeaning.dfy`, `Coins.dfy`, `StateDb.dfy`, `StateOutputs.dfy`, `StateValidation.dfy`, `StateRoundTrip.dfy`, `StateRuns.dfy`, `StateExample.dfy`, `OutPointOrder.dfy`, `StateBatch.dfy`, `State.dfy`: validating, connecting and disconnecting blocks, one transaction at a time and in a sorted batch, and what is stored afterwards.
- `Segments.dfy`, `ReorgRun.dfy`, `Reorg.dfy`, `ReorgOntoAncestor.dfy`, `ReorgOntoAncestorExample.dfy`, `PathIndependence.dfy`: reorganisation.
- `SideTips.dfy`, `MainchainSync.dfy`, `MainchainUndo.dfy`, `MainchainUndoExample.dfy`: following the mainchain, and when that succeeds.
- `MemPool.dfy`, `LineBuffer.dfy`, `Wallet.dfy`: pending transactions, the log buffer, coins.
- `Wrappers.dfy`, `Arith.dfy`, `ChainTypes.dfy`: shared types and arithmetic.

## What the proofs found

Some promises do not hold of the code as written. The model keeps the code, a
lemma gives an input, and another gives the exact condition under which the
promise holds.

- Three tips can beat each other in a circle (`BetterTipExample.ExampleCycles`), although no two ever do (`BetterTip.NeverBothBetter`). At one height with different work that is so exactly for two tips on one mainchain line with a third between them in work that shares a line with neither (`BetterTipCircles.CircleExactly`); tips on one line never form a circle (`BetterTipCircles.NoCircleAlongLines`). Ties keep the first argument.
- A bid at the end block of an auction whose last bid was earlier fails an assertion (`DutchAuction.EndBlockBidPanics`, `DutchAuction.BidPanicsExactly`).
- A mint followed by a burn can take out more than was put in when reserves were left without outstanding tokens (`Amm.LeftoversExist`, `Amm.FirstMintThenBurn`).
- Sequence numbers are stored under little-endian keys, and the next number follows the key that is last in byte order (`lib/state/bitassets.rs:281`, `:322-341`). With 257 assets that is 256, a number in use (`BitAssets.NumberTakenAt257`): the registration overwrites the older asset's row, and no block that makes one can be undone (`StateRoundTrip.NotRestoredAt257`). The counts at which the next number is free are known in closed form (`KeyOrder.CountFitsExactly`).
- Registering an asset that is registered already breaks the numbering; blocks are checked against the state before the block only, so a block can register one name twice (`StateExample.NotRestored`). Disconnecting a block restores the state if and only if it registers distinct new assets at counts that fit (`StateRoundTrip.DisconnectRestoresExactly`; for runs `StateRuns.RunRestoredExactly`).
- An older block of the current chain beats its own descendant exactly when a commitment to it has more total work and its parent was built on the mainchain (`ReorgOntoAncestor.OlderBlockBeatsTip`, on an archive in `ReorgOntoAncestorExample.ItHappens`). The reorganisation to it never succeeds, because its plan starts over from genesis (`Reorg.OntoItselfFails`); an attempt that gets as far as connecting discards the body of the genesis block (last clause of `Reorg.Node.ReorgToTip`).
- A sidechain tip recorded by a mainchain block is not offered again after that block is disconnected and connected once more, and the block cannot be disconnected a second time (`SideTips.ReconnectedTipIsLost`, `SideTips.DisconnectUndoes`).
- A mainchain block whose commitment is passed over when it is connected, for want of the body or of a recorded parent, cannot be disconnected until the row that it did not make exists (`MainchainUndo.PassedOverIsStuck`, on an archive in `MainchainUndoExample.GenesisIsStuck`). Connect and disconnect cancel exactly for blocks that name nothing or a block recorded elsewhere (`MainchainUndo.UpThenDown`), and the whole walk succeeds exactly under a condition on the tables at its start (`MainchainUndo.DownsExactly`, `MainchainUndo.SyncsExactly`).
- The mainchain common-ancestor search returns the genesis of the first block when the two blocks share none (`HeaderTree.UncheckedMeetIffSharedRoot`). The mainchain walk is right all the same.
- A line limit of zero panics on every valid write (`LineBuffer.LineBuffer.Write`).
- Putting a pending transaction again with fewer signing addresses leaves stale rows in the address index (`MemPool.PutAddressesExact`); only a transaction without inputs gets that far.

## Model

| member | source | states |
|---|---|---|
| `HeaderTree.GetNthAncestor` | lib/archive/mod.rs:511-576 | The n-th ancestor found through the index equals n parent steps, fails exactly when the block is unknown or n exceeds its height, and takes at most one round per set bit of n; one proof for both trees |
| `HeaderTree.ExponentialCovers` | lib/archive/mod.rs:534-539 | An exact index row holds the ancestor at the largest power of two not above the depth asked for, so the jump never reads outside the row |
| `HeaderTree.BuildExponential` | lib/archive/mod.rs:950-972 | The row built for a new block lists exactly its ancestors at depths 2, 4, 8, ... up to its height, whatever the block is called |
| `HeaderTree.PutIndex` | lib/archive/mod.rs:917-972 | Storing a block with such a row keeps the index exact for every block |
| `HeaderTree.Tree.PutKeeps` | lib/archive/mod.rs:917-947 | A new or repeated block keeps the tree well formed and changes no ancestor line |
| `HeaderTree.Tree.AncestorDepth` | lib/archive/mod.rs:601-648 | A block is an ancestor exactly when it is found at the depth given by the height difference |
| `HeaderTree.IsDescendant` | lib/archive/mod.rs:601-648 | Answers ancestry with one indexed lookup: true at once for equal hashes, an error for unknown blocks, otherwise exactly ancestry |
| `HeaderTree.SearchAgreement` | lib/archive/mod.rs:1355-1372 | The binary search ends at the first depth at which two equally high, related blocks agree |
| `HeaderTree.AgreementSpreads` | lib/archive/mod.rs:1355-1372 | Agreement at one depth implies agreement at every larger depth, which makes the search correct |
| `HeaderTree.LastCommonAncestor` | lib/archive/mod.rs:1314-1372 | Returns the highest block that is an ancestor of both, `None` exactly when the oldest ancestors differ, an error exactly for unknown blocks |
| `HeaderTree.Tree.CommonIffRoot` | lib/archive/mod.rs:1345-1353 | Two blocks share an ancestor exactly when they share the oldest one |
| `HeaderTree.LastCommonAncestorUnchecked` | lib/archive/mod.rs:1376-1423 | The mainchain search: the last common ancestor when the two blocks share a genesis, otherwise the genesis of the first block |
| `HeaderTree.UncheckedMeetIffSharedRoot` | lib/archive/mod.rs:1376-1423 | That answer is a last common ancestor exactly when the two blocks share a genesis |
| `HeaderTree.SharedLineage` | lib/archive/mod.rs:1427-1468 | True exactly when one block is an ancestor of the other |
| `Archive.Archive.PutHeader` | lib/archive/mod.rs:912-1043 | Succeeds exactly when the parent is stored and every mainchain successor has its info; then header, height, index, successors and verdicts are all exact again, otherwise nothing changes |
| `Archive.Archive.PutMainHeaderInfo` | lib/archive/mod.rs:1099-1181 | The same for a mainchain header, with accumulated work |
| `Archive.Archive.PutMainBlockInfo` | lib/archive/mod.rs:1045-1097 | The same for a mainchain block and its commitment; the verdicts of the side block it names are exact again |
| `Archive.Archive.PutBody` | lib/archive/mod.rs:724-741 | Stores a body of a known block and indexes it; the inclusion index stays exact |
| `Archive.Archive.DeleteBody` | lib/archive/mod.rs:814-831 | Removes a body and its index entries; the inclusion index stays exact |
| `Archive.Archive.InvalidateBlock` | lib/archive/mod.rs:853-910 | Removes exactly the block and its stored descendants, with their bodies and index entries, and marks precisely those invalid |
| `Archive.Archive.TryGetBestMainVerification` | lib/archive/mod.rs:482-500 | The verifying mainchain block with the most total work, absent exactly when none verifies |
| `Archive.AnyVerifiedAncestor` | lib/archive/mod.rs:1013-1025 | Finds a verified mainchain ancestor exactly when the row holds one |
| `ArchiveSteps.HeaderStoredValid` | lib/archive/mod.rs:912-1043 | Storing a header keeps the whole archive invariant |
| `ArchiveSteps.MainHeaderStoredValid` | lib/archive/mod.rs:1099-1181 | Storing a mainchain header keeps the whole archive invariant |
| `ArchiveSteps.InfoStoredValid` | lib/archive/mod.rs:1045-1097 | Storing a mainchain block info keeps the whole archive invariant |
| `ArchiveSteps.RefilledExact` | lib/archive/mod.rs:973-1039 | Rewriting one row of verdicts at the affected mainchain blocks makes the verdict table exact for the new headers and infos |
| `ArchiveDb.VerifiesStable` | lib/archive/mod.rs:973-1097 | Whether a stored info verifies a stored header never depends on what arrives later |
| `ArchiveDb.InfoAncestors` | lib/archive/mod.rs:1051-1057 | All mainchain ancestors of a block with a stored info have stored infos |
| `BmmOrder.VerifiedExactly` | lib/archive/mod.rs:973-1039 | A pair is verified exactly when the mainchain block commits to the side block, follows the mainchain block it was built on, and the parent, if any, is verified at a mainchain ancestor |
| `BmmOrder.LegalHolds` | lib/archive/mod.rs:912-1181 | Every archive reached by any legal sequence of arrivals is valid and holds exactly what arrived |
| `BmmOrder.OrderIrrelevant` | lib/archive/mod.rs:973-1097 | Two legal histories of the same arrivals, in whatever order, verify the same pairs |
| `ArchiveBodies.AddInclusions` | lib/archive/mod.rs:730-741 | Indexing a body gives each of its transactions its last position and changes no other entry |
| `ArchiveBodies.RemoveInclusions` | lib/archive/mod.rs:820-831 | Unindexing a body removes its entries, drops rows that become empty and changes no other entry |
| `ArchiveBodies.AddedExact` | lib/archive/mod.rs:730-741 | After adding, the index is exact for the bodies including the new one |
| `ArchiveBodies.RemovedExact` | lib/archive/mod.rs:820-831 | After removing, the index is exact for the remaining bodies |
| `ArchiveBodies.InclusionsDetermined` | lib/archive/mod.rs:711-722 | The index is determined by the stored bodies |
| `Invalidation.InvalidatedValid` | lib/archive/mod.rs:853-910 | Invalidation keeps the archive invariant: successors stay the inverse of parents, indexes and verdicts stay exact |
| `Invalidation.InvalidatedAncestorClosed` | lib/archive/mod.rs:853-910 | Every ancestor of a remaining header remains and is not invalid |
| `Invalidation.FrontierDone` | lib/archive/mod.rs:857-908 | When the stack is empty, what was removed is exactly the subtree of the block |
| `Invalidation.PrunedValid` | lib/archive/mod.rs:868-905 | The header tables without a subtree are again valid header tables |
| `Invalidation.DeleteUndoesPut` | lib/archive/mod.rs:814-831 | Deleting a body that was just put restores bodies and index |
| `BetterTip.BetterTip` | lib/archive/mod.rs:1471-1688 | The branching rule with its ancestor searches computes the specified preference for every pair of tips, errors included |
| `BetterTip.FindPreFork` | lib/archive/mod.rs:1536-1553 | The newest ancestor built strictly before the fork, found by walking back, is the recursively defined one |
| `BetterTip.MeetIsUncheckedMeet` | lib/archive/mod.rs:1376-1423 | Stepping back from both mainchain blocks ends where the indexed search ends |
| `BetterTip.NeverBothBetter` | lib/archive/mod.rs:1471-1688 | No two tips beat each other, over all height and work cases |
| `BetterTip.PreferredBothWays` | lib/archive/mod.rs:1471-1688 | For tips above genesis the two argument orders agree on the winner, except for exact ties, where each order keeps its first argument |
| `BetterTip.AnswersNameATip` | lib/archive/mod.rs:1471-1496 | An answer names one of the two tips; none is named exactly for equal tips or two genesis tips |
| `BetterTipMeaning.WalkFindsHighest` | lib/archive/mod.rs:1536-1553 | The walk back finds the highest block of the chain, the tip included, that was built strictly below the fork, and fails exactly if a block built on an unknown mainchain block comes first |
| `BetterTipMeaning.GenesisLoses` | lib/archive/mod.rs:1488-1496 | A genesis tip loses to every higher one |
| `BetterTipMeaning.HigherAndHeavier` | lib/archive/mod.rs:1503-1530 | A higher tip with at least as much work wins, whichever is named first |
| `BetterTipMeaning.HigherButLighter` | lib/archive/mod.rs:1529-1560 | A higher tip with less work wins exactly if some block of its chain was built before the fork and has at least the other tip's height; otherwise the other wins, and there is no answer exactly if the search is blocked |
| `BetterTipMeaning.LowerButHeavier` | lib/archive/mod.rs:1560-1590 | The same with the higher tip named second |
| `BetterTipMeaning.TieDecided` | lib/archive/mod.rs:1590-1688 | At equal height and work the second tip wins exactly if its chain was higher before the fork, or as high and committed to with less work |
| `BetterTipMeaning.SameBlockKept` | lib/archive/mod.rs:1590-1688 | Of two tips of one block at equal work the one named first is kept |
| `BetterTipCircles.SameHeight` | lib/archive/mod.rs:1503-1530 | At one height, less work wins between two tips on one mainchain line and more work wins across lines |
| `BetterTipCircles.CircleExactly` | lib/archive/mod.rs:1503-1530 | Three tips at one height with different work beat each other in a circle exactly when the outer two by work share a mainchain line and the middle one shares a line with neither; the circle then runs upwards in work, never the other way |
| `BetterTipCircles.LineOrder` | lib/archive/mod.rs:1471-1688 | Between committed tips on one mainchain line the rule only ever moves to a higher block, or at one height to the earlier commitment |
| `BetterTipCircles.NoCircleAlongLines` | lib/archive/mod.rs:1471-1688 | No circle of any length, over any heights and works, moves along mainchain lines only |
| `BetterTipExample.ExampleCycles` | lib/archive/mod.rs:1503-1530 | A concrete archive with three properly committed tips that beat each other in a circle |
| `AncestorIter.AncestorsRev.Next` | lib/archive/iter.rs:90-144 | Yields the oldest pending ancestor, whatever the batch boundaries; once nothing is pending, only `None` |
| `AncestorIter.AncestorsRev.constructor` | lib/archive/iter.rs:73-88 | What is pending at first are exactly the ancestors from the start height up to the block, none if the start is above it |
| `AncestorIter.AncestorsRev.FetchBatch` | lib/archive/iter.rs:107-141 | Fetching a batch of at most 32 does not change what is pending; the mainchain iterator is the same loop |
| `AncestorIter.RisingComplete` | lib/archive/iter.rs:193-248 | The pending list skips no ancestor: at each height stands the one ancestor of that height |
| `Amm.MintKeepsSolvent` | lib/state/amm.rs:61-112 | In a solvent pool a mint fails exactly when a reserve would overflow, and otherwise keeps the pool solvent and the value of a share |
| `Amm.BurnKeepsSolvent` | lib/state/amm.rs:147-180 | In a solvent pool a burn succeeds exactly when tokens are outstanding and no more are burned than exist, and keeps it solvent |
| `Amm.SwapKeepsSolvent` | lib/state/amm.rs:211-305 | A swap keeps the pool solvent and never lowers the product of the reserves; it divides by zero exactly for an empty reserve and an amount that the fee consumes |
| `Amm.PositiveReserves` | lib/state/amm.rs:61-112 | Outstanding tokens in a solvent pool imply two positive reserves |
| `Amm.RunSolvent` | lib/state/amm.rs:61-305 | Any run of mints, burns and swaps keeps tokens squared at most the product of the reserves |
| `Amm.ReachablePool` | lib/state/amm.rs:61-305 | In every reachable pool token overflow never happens, no operation panics while tokens are outstanding, and mints and burns fail only for the stated reasons |
| `Amm.RunKeepsValue` | lib/state/amm.rs:61-305 | While tokens stay outstanding the product per squared token never falls over any run |
| `Amm.MintThenBurnNeverProfits` | lib/state/amm.rs:61-180 | Minting into a pool with outstanding tokens and burning what was minted returns no more than was put in |
| `Amm.FirstMintThenBurn` | lib/state/amm.rs:76-86 | Minting into a pool without outstanding tokens and burning them takes out no more than was put in exactly when both reserves were empty |
| `Amm.LeftoversExist` | lib/state/amm.rs:61-112 | Such leftover reserves are reachable: minting with one zero amount leaves a reserve and no token |
| `Amm.SwapsNeverProfit` | lib/state/amm.rs:211-305 | After any run of swaps, a pool that lost one asset has not lost the other |
| `Amm.RevertMintUndoes` | lib/state/amm.rs:115-144 | Reverting a mint restores the pool |
| `Amm.UnburnUndoes` | lib/state/amm.rs:183-208 | Reverting a burn restores the pool |
| `Amm.RevertSwapUndoes` | lib/state/amm.rs:308-343 | Reverting a swap, in either direction, restores the pool |
| `Amm.BurnDivides` | lib/state/amm.rs:147-180 | A burn pays, of each reserve, the integer quotient of reserve times tokens by tokens outstanding |
| `Amm.SwapDivides` | lib/state/amm.rs:211-305 | A swap keeps the product divided by the new reserve after fee, rounded up, and takes the fee from the difference |
| `Amm.AfterFee` | lib/state/amm.rs:211-255 | What is left of an amount after the fee is 997 parts in 1000 of it, rounded down |
| `Amm.MintAdds` | lib/state/amm.rs:61-112 | A mint adds both deposits to the reserves, and as tokens the rounded root of the new product if there were none, otherwise the largest number whose share of either reserve no deposit falls short of |
| `DutchAuction.CreatedSound` | lib/state/dutch_auction.rs:284-347 | A created auction satisfies the invariant: price at least end price, amounts in range, schedule not over |
| `DutchAuction.PriceDefined` | lib/state/dutch_auction.rs:72-118 | Between the last bid and the end the current price lies between end price and last price, and is undefined exactly at the end block of an auction whose last bid was earlier |
| `DutchAuction.PriceOnLine` | lib/state/dutch_auction.rs:81-107 | The price is the last price less the price span times the blocks gone by, divided by the blocks that were left, the quotient rounded down |
| `DutchAuction.PriceFalls` | lib/state/dutch_auction.rs:81-107 | Between bids the price never rises, and it starts at the price left by the last bid |
| `DutchAuction.BidKeepsSound` | lib/state/dutch_auction.rs:49-158 | An accepted bid keeps the invariant, adds exactly its amount to the quote, takes it from the current price and never lowers the price per remaining base unit |
| `DutchAuction.BidFills` | lib/state/dutch_auction.rs:109-158 | An accepted bid sells its amount times the base left, divided by the price on the line and rounded up; the new price is that price less the amount, and the end price scales with the base left, rounded up |
| `DutchAuction.BidAccepted` | lib/state/dutch_auction.rs:49-158 | A bid on a sound auction is accepted exactly from the start block to the end, not before the last bid, with base left and a price that is defined and positive, for a nonzero amount that buys no more than is left |
| `DutchAuction.BidPanicsExactly` | lib/state/dutch_auction.rs:101-103 | A bid on a sound auction with base left hits the failing assertion exactly at the end block after an earlier last bid |
| `DutchAuction.EndBlockBidPanics` | lib/state/dutch_auction.rs:101-103 | A concrete created auction and end-block bid that fails the assertion |
| `DutchAuction.RunKeepsSound` | lib/state/dutch_auction.rs:49-158 | Over any run of accepted bids quote received plus price left is at most the initial price, and base sold plus base left is the initial base |
| `DutchAuction.RunHeightsRise` | lib/state/dutch_auction.rs:69-78 | Heights of accepted bids never fall and never precede the start block |
| `DutchAuction.NoBidAfterCollect` | lib/state/dutch_auction.rs:363-407 | After collecting, every bid fails |
| `DutchAuction.RevertBidUndoes` | lib/state/dutch_auction.rs:161-210 | Reverting a bid restores the auction |
| `DutchAuction.RevertCollectUndoes` | lib/state/dutch_auction.rs:410-447 | Reverting a collect restores the auction |
| `Rollback.RollBack.PopUndoesPush` | lib/state/rollback.rs:85-98 | Popping after pushing returns the pushed entry and restores the history |
| `Rollback.RollBack.AtBlockHeightIsLast` | lib/state/rollback.rs:100-111 | The answer at a height is the last entry written at or below it, absent exactly when all are later |
| `Rollback.RollBack.PastUnchanged` | lib/state/rollback.rs:90-111 | Pushing at a later height changes no answer about an earlier one |
| `BitAssetDbs.AtBlockHeight` | lib/state/rollback.rs:103-111 | The search from the newest entry back finds the specified entry |
| `BitAssetDbs.Dbs.DataAtBlockHeight` | lib/state/bitassets.rs:220-235 | Looks up each of the five fields in its own history; absent exactly when the asset or one of the fields is |
| `BitAssetDbs.Dbs.NextSeq` | lib/state/bitassets.rs:322-341 | One more than the sequence number whose little-endian key is last in byte order, zero if there is none |
| `BitAssetDbs.Dbs.ApplyRegistration` | lib/state/bitassets.rs:505-556 | Burns the first matching reservation, numbers the asset and stores its data, or fails as specified |
| `BitAssetDbs.Dbs.RevertRegistration` | lib/state/bitassets.rs:559-596 | Takes the four table entries back, or fails as specified |
| `BitAssetDbs.Dbs.ApplyMint` | lib/state/bitassets.rs:599-636 | Pushes the new total supply, or fails as specified |
| `BitAssetDbs.Dbs.RevertMint` | lib/state/bitassets.rs:639-673 | Pops the total supply and checks it, or fails as specified |
| `BitAssetDbs.Dbs.ApplyUpdates` | lib/state/bitassets.rs:441-468 | Pushes each updated field, or fails as specified |
| `BitAssetDbs.Dbs.RevertUpdates` | lib/state/bitassets.rs:471-502 | Pops each updated field and checks it, or fails as specified |
| `BitAssetDbs.Dbs.PutReservation` | lib/state/bitassets.rs:431-438 | Stores the reservation and nothing else |
| `BitAssetDbs.Dbs.DeleteReservation` | lib/state/bitassets.rs:422-428 | Deletes the reservation and says whether it was there |
| `BitAssets.RegisterKeepsBijection` | lib/state/bitassets.rs:505-556 | A registration of a new asset keeps numbers and assets in bijection with 0..n exactly when the count fits; one of a registered asset, exactly when it gets its old number again |
| `BitAssets.RevertRegisterUndoes` | lib/state/bitassets.rs:559-596 | Reverting a registration restores all four tables exactly when the asset was not registered and its number was free, given that stored reservations match their outputs |
| `BitAssets.RevertMintUndoes` | lib/state/bitassets.rs:639-673 | Reverting a mint restores the tables |
| `BitAssets.RevertUpdateUndoes` | lib/state/bitassets.rs:471-502 | Reverting an update restores the tables |
| `BitAssets.UpdatesRoundTrip` | lib/state/bitassets.rs:85-217 | Reverting the five field updates in reverse order restores the data |
| `BitAssets.NextSeqIsCount` | lib/state/bitassets.rs:322-341 | While numbers are in bijection with 0..n the next number is n exactly when the key of n - 1 is last, and otherwise is a number in use |
| `KeyOrder.LowestByteFirst` | lib/state/bitassets.rs:281-281 | Little-endian keys are compared by their lowest byte first |
| `KeyOrder.CountFitsExactly` | lib/state/bitassets.rs:281-281 | For which counts the key of the last number is last: a closed form over the bytes |
| `KeyOrder.CountsFromZero` | lib/state/bitassets.rs:322-341 | Counting up from zero, every count on the way fits exactly for up to 257 registrations |
| `BitAssets.NumberTakenAt257` | lib/state/bitassets.rs:322-341 | With 257 assets the next number is 256, which is in use |
| `BitAssets.RegistrationsFitMeans` | lib/state/bitassets.rs:505-556 | Registrations fit exactly when the assets are distinct, none is registered before and every count on the way fits |
| `BitAssetRuns.ExecReplays` | lib/state/bitassets.rs:441-673 | Any run of operations and last-in-first-out reverts, with registrations of new assets at counts that fit, ends where the operations still standing lead |
| `BitAssetRuns.UndoNeverFails` | lib/state/bitassets.rs:471-673 | In such a run the last standing operation can always be reverted |
| `BitAssetRuns.RunsKeep` | lib/state/bitassets.rs:441-673 | Over any such run numbers stay in bijection, supply is the initial supply plus unreverted issues, and answers about past heights never change |
| `BitAssetRuns.NumbersKeptExactly` | lib/state/bitassets.rs:505-556 | After any operations every registration has added an asset and numbers are in bijection exactly when the registered assets were new and distinct and every count on the way fits |
| `BitAssetRuns.NumbersKeptFromStart` | lib/state/bitassets.rs:505-556 | Starting from nothing that is exactly up to 257 distinct assets |
| `Effects.AssetOrderTotal` | lib/state/amm.rs:15-35 | The order of assets in a pair is total, so a pair is the same whichever asset is named first |
| `Effects.BurnUndone` | lib/state/amm.rs:346-403 | Reverting an applied burn restores the pool table |
| `Effects.MintUndone` | lib/state/amm.rs:406-468 | Reverting an applied mint restores the pool table, a pool it created included |
| `Effects.SwapUndone` | lib/state/amm.rs:471-532 | Reverting an applied swap restores the pool table |
| `Effects.CreateUndone` | lib/state/dutch_auction.rs:284-360 | Reverting an auction creation restores the auction table |
| `Effects.BidUndone` | lib/state/dutch_auction.rs:213-281 | Reverting an applied bid restores the auction table |
| `Effects.CollectUndone` | lib/state/dutch_auction.rs:363-447 | Reverting an applied collect restores the auction table |
| `Effects.EffectUndone` | lib/state/block.rs:606-672 | For each of the ten kinds of transaction the inverse restores pools, auctions and asset tables exactly, a registration if and only if asset and number were new; pools stay solvent |
| `Effects.PoolsUseOwnTxid` | lib/state/amm.rs:406-435 | No transaction stores a pool under another transaction id |
| `Effects.AuctionsUseOwnTxid` | lib/state/dutch_auction.rs:284-347 | No transaction stores an auction under another transaction id |
| `Effects.ReservationsUseOwnTxid` | lib/state/bitassets.rs:431-438 | A transaction changes no reservation but its own and those it burns |
| `Effects.NumbersGrow` | lib/state/bitassets.rs:505-556 | Applying a transaction grows the two number tables by what it registers, as far as that is new |
| `Effects.NumbersShrink` | lib/state/bitassets.rs:559-596 | Every reverted registration takes exactly one row off each number table |
| `EffectsMeaning.FirstLpTokenIs` | lib/types/transaction/mod.rs:852-871 | A burn concerns the pair of the first liquidity token spent |
| `EffectsMeaning.FirstReceiptIs` | lib/types/transaction/mod.rs:970-994 | A collect concerns the auction of the first receipt spent |
| `EffectsMeaning.LastBitAssetIs` | lib/state/bitassets.rs:441-468 | An update concerns the last asset spent |
| `EffectsMeaning.LastControlIs` | lib/state/bitassets.rs:599-636 | A mint of an asset concerns that of the last control coin spent |
| `EffectsMeaning.AssetsAre` | lib/types/transaction/mod.rs:1118-1134 | The distinct assets spent are those of bitcoin, asset and control outputs |
| `EffectsMeaning.AssetsInOrder` | lib/types/transaction/mod.rs:1118-1134 | They are listed in the order in which they are first spent |
| `EffectsMeaning.PairIs` | lib/state/amm.rs:15-35 | A pair lists two assets in order, whichever is named first |
| `EffectsMeaning.BurnDoes` | lib/state/amm.rs:346-377 | A burn applies exactly if it names the integer parts of the burned share of each reserve and burns no more than exists; it takes exactly these out of that one pool |
| `EffectsMeaning.MintDoes` | lib/state/amm.rs:406-435 | A mint applies exactly if it names the tokens that the pool mints; it adds deposits and tokens to that one pool, a new one if there was none |
| `EffectsMeaning.SwapDoes` | lib/state/amm.rs:471-508 | A swap applies exactly if what it receives is what the pool pays for what it spends; the one is added to the reserve of the first asset spent, the other taken out of the other reserve |
| `EffectsMeaning.ReservationDoes` | lib/state/bitassets.rs:431-438 | A reservation stores its commitment under the transaction id and changes nothing else |
| `EffectsMeaning.RegistrationDoes` | lib/state/bitassets.rs:505-556 | A registration applies exactly if the first spent output that reserves the implied commitment is a stored reservation and a number is left; it takes that reservation away, takes the next number and starts six histories with the given values |
| `EffectsMeaning.AssetMintDoes` | lib/state/bitassets.rs:599-636 | A mint of an asset applies exactly if the asset is known and the sum fits; the supply gains the sum and nothing else changes |
| `EffectsMeaning.UpdateDoes` | lib/state/bitassets.rs:441-468 | An update retains, deletes or sets each field on its own and leaves the supply |
| `EffectsMeaning.BidDoes` | lib/state/dutch_auction.rs:213-251 | A bid applies exactly if the named auction sells for the asset spent, accepts the size, and the quantity named is what the size buys; the size goes to the quote side and the quantity leaves the base side |
| `EffectsMeaning.CreateDoes` | lib/state/dutch_auction.rs:284-347 | A creation applies exactly for admissible parameters and stores an unsold auction at its initial price |
| `EffectsMeaning.CollectDoes` | lib/state/dutch_auction.rs:363-407 | A collect applies exactly if the auction is over and assets and amounts are named rightly; it empties both sides and leaves the rest |
| `Coins.FillFrom` | lib/state/mod.rs:316-334 | Filling succeeds exactly when every input is unspent, and then returns the outputs they spend, in order |
| `Coins.FillSpentFrom` | lib/state/mod.rs:337-364 | Filling from the spent table succeeds exactly when every input was spent by this transaction at this position |
| `Coins.SpendIsExact` | lib/state/block.rs:462-477 | Spending moves exactly the inputs from unspent to spent, each with its inpoint, and needs them distinct |
| `Coins.SpendSucceeds` | lib/state/block.rs:462-477 | Spending succeeds exactly when the inputs are unspent and distinct |
| `Coins.UnspendUndoes` | lib/state/block.rs:688-704 | Unspending, last input first, restores both tables |
| `Coins.UncreateUndoes` | lib/state/block.rs:673-687 | Deleting created outputs, last first, restores the table if their outpoints were new |
| `Coins.CreateIsExact` | lib/state/block.rs:482-490 | Creating outputs adds exactly their outpoints |
| `StateDb.CoinbaseOutputs` | lib/state/block.rs:431-458 | Coinbase outputs are filled exactly when all hold bitcoin or a withdrawal |
| `State.State.FillTransaction` | lib/state/mod.rs:316-334 | The loop fills a transaction as specified, or names the missing output |
| `State.State.FillTransactionFromStxos` | lib/state/mod.rs:337-364 | The backward loop fills an applied transaction as specified; a foreign inpoint is a failed assertion |
| `State.State.ApplyEffect` | lib/state/block.rs:491-559 | Applies the effect of a filled transaction to pools, auctions and asset tables in place, or fails as specified |
| `State.State.RevertEffect` | lib/state/block.rs:606-672 | Reverts that effect in place, or fails as specified |
| `State.State.Connect` | lib/state/block.rs:402-568 | The loops over transactions, inputs and outputs compute the specified new state; an error leaves the state as it was |
| `StateOutputs.ConnectExact` | lib/state/block.rs:402-568 | A block with new outpoints connects exactly if it sits on the tip, its inputs are unspent and spent once, its root agrees, its coinbase holds bitcoin and withdrawals, every output can be filled and every effect applies in its place; then each output that is not spent later in the block is stored under its own outpoint with its own address, memo and filled content, each unspent coinbase output with its address, memo and value, and every other row of both tables is as before unless the block spends it |
| `StateOutputs.TxsApplyExactly` | lib/state/block.rs:459-563 | Transactions all apply exactly if each does in its place, and what is unspent, spent and effected after any number of them is determined by the tables before the block |
| `State.State.DisconnectTip` | lib/state/block.rs:570-736 | The backward loops compute the specified earlier state; an error leaves the state as it was |
| `StateRoundTrip.DisconnectChecks` | lib/state/block.rs:570-602 | Only the tip is disconnected, with a body whose inputs all went to its own transactions at their places and whose root agrees with what they spent; the state steps back to the parent, one lower |
| `State.State.SpendsTwice` | lib/state/block.rs:151-165 | The scan of sorted keys reports a double spend exactly when the block spends some outpoint twice |
| `State.State.Prevalidate` | lib/state/block.rs:103-201 | Validation loops compute the specified verdict: size, tip, inputs, root, amounts, double spends, fees, owners |
| `StateValidation.PrevalidateExact` | lib/state/block.rs:103-201 | A block is validated exactly if its size fits, it sits on the tip, all inputs are unspent, the root agrees, no outpoint is spent twice, every transaction has a fee, both sums fit 64 bits, the coinbase pays out no more than the fees, each authorization is the owner's and the signatures hold; the verdict then carries the filled transactions, the root, both sums and the next height |
| `StateValidation.AmountsExact` | lib/state/block.rs:137-175 | The amounts pass exactly if no outpoint is spent twice, all fees exist, both sums fit and the payout is at most the fees |
| `StateValidation.DistinctIsSpendsOnce` | lib/state/block.rs:151-165 | The scanned list has no repetition exactly if no two inputs of the block spend one outpoint |
| `State.State.ConnectPrevalidated` | lib/state/block.rs:203-400 | Gathering, sorting and writing computes the specified batched result; an error leaves the state as it was |
| `OutPointOrder.KeyInjective` | lib/types/transaction/mod.rs:128-137 | Different outpoints have different encoded keys |
| `OutPointOrder.AtMostTotal` | lib/types/transaction/mod.rs:182-194 | The order of encoded keys is total and antisymmetric |
| `OutPointOrder.SortSorts` | lib/state/block.rs:376-379 | Sorting sorts |
| `OutPointOrder.ScanFindsDuplicates` | lib/state/block.rs:161-165 | For any sorted permutation, equal neighbours exist exactly when some key occurs twice |
| `OutPointOrder.PutAllPermuted` | lib/state/block.rs:386-392 | Rows with distinct keys can be written in any order |
| `StateBatch.SortedWritesSame` | lib/state/block.rs:376-392 | Sorting the three row lists does not change what is written |
| `StateBatch.TxInStep` | lib/state/block.rs:262-374 | One transaction keeps the batch and the sequential state in step, or fails with the same error in both |
| `StateBatch.BatchedIsSequential` | lib/state/block.rs:203-568 | A validated block with new outpoints connects in one batch to the same state, or fails with the same error, as one transaction at a time |
| `StateRoundTrip.TxUndone` | lib/state/block.rs:602-705 | Reverting a transaction restores the state before it |
| `StateRoundTrip.FillsAsBefore` | lib/state/block.rs:584-597 | After a block every transaction fills from the spent table as it filled before, so the root is the same |
| `StateRoundTrip.DisconnectUndoesConnect` | lib/state/block.rs:402-736 | Whatever a block with new ids did to a valid state, disconnecting it restores exactly the earlier outputs, pools, auctions, asset histories, reservations, tip and height, if what it registers is new |
| `StateRoundTrip.DisconnectRestoresExactly` | lib/state/block.rs:402-736 | For every block with new transaction ids that connects, disconnecting restores the state if and only if the block registers distinct new assets, each at a count at which the next number is free |
| `StateRoundTrip.NotRestoredAt257` | lib/state/block.rs:402-736 | In a state with 257 assets no block that registers one is undone |
| `StateRoundTrip.TxsInduction` | lib/state/block.rs:459-563 | What holds at first and is kept by each transaction holds after all of a block |
| `StateExample.NotRestored` | lib/state/block.rs:402-736 | A concrete block of two transactions that register one name: it connects and is not undone |
| `StateRuns.ConnectKeepsMatch` | lib/types/transaction/mod.rs:1534-1572 | Stored reservations keep matching the outputs that name them over every connected block |
| `StateRuns.RunUndone` | lib/state/block.rs:402-736 | Connecting any run of blocks with new ids and disconnecting it, last first, restores the state, if what the run registers is new |
| `StateRuns.RunRestoredExactly` | lib/state/block.rs:402-736 | A run of blocks with new ids is undone if and only if what it registers, taken together, is new and distinct and every count on the way fits |
| `Reorg.ApplyIsConnect` | lib/state/mod.rs:832-847 | Validating and connecting in a batch gives the result of the sequential connect |
| `Reorg.AppliedExactly` | lib/state/mod.rs:832-847 | A block with new outpoints is applied exactly if it is valid and connects, and the new state is the one determined for it |
| `ReorgRun.Run.CommittedBeats` | lib/node/net_task.rs:457-488 | What is committed after any number of steps is what was, or the state of the last block on the way whose tip beats the old one; no later block of the way beats it |
| `ReorgRun.Run.FailedNotPassed` | lib/node/net_task.rs:457-488 | A run passes exactly if no step of it fails |
| `Reorg.DisconnectsLand` | lib/node/net_task.rs:389-417 | The counted disconnects end exactly at the last common ancestor, or before genesis when there is none |
| `Reorg.StateStepsFit` | lib/node/net_task.rs:182-308 | The state's own connect and disconnect move the tip to the block and to its parent |
| `Reorg.Node.DisconnectTimes` | lib/node/net_task.rs:414-416 | Disconnecting n times succeeds exactly if each of the n bodies is stored and each disconnect succeeds, and moves the tip n parents back |
| `Reorg.Node.BlocksToApply` | lib/node/net_task.rs:361-388 | The blocks to apply are those from the new tip down to just above the meeting point, or down to genesis when the new tip is the meeting point; they are read exactly if all their bodies are stored |
| `Reorg.Node.MainLine` | lib/node/net_task.rs:422-442 | The mainchain blocks to hand out are those from the new tip's mainchain block down to just above the meeting point's; they are read exactly if all their infos are stored |
| `Reorg.Node.ApplyBlocks` | lib/node/net_task.rs:444-488 | Blocks are connected parent first, each with its segment. It succeeds exactly if all connect and all tips on the way can be judged; otherwise exactly the first block that fails is the reason, that block loses its body if it is invalid, and the last state of the way whose tip beats the old one, if any, is what stands |
| `Reorg.Node.ReorgToTip` | lib/node/net_task.rs:319-495 | It declines, changing nothing, exactly if there is a judged tip that the new one does not beat. It succeeds exactly if the new tip wins, the bodies and infos of the way are stored, every disconnect and connect of the way succeeds and every tip on it can be judged. On any error the last state of the way whose tip beat the old one stands, or the old state; a reorganisation to an ancestor of the tip fails as for an invalid block and discards the body of its genesis block |
| `Segments.Take` | lib/node/net_task.rs:446-455 | Popping the batch up to a mainchain block yields the specified segment, oldest first |
| `Segments.NothingLost` | lib/node/net_task.rs:444-455 | Whatever the targets, segments never repeat, skip or reorder a block |
| `Segments.SegmentsFit` | lib/node/net_task.rs:422-455 | For targets that climb one mainchain line, segments are consecutive, disjoint, oldest first, each ends at its target and nothing is left over |
| `Segments.PathClimbs` | lib/archive/mod.rs:973-1039 | The blocks that a validly committed chain was built on climb one mainchain line |
| `Segments.AbsentTargetTakesAll` | lib/node/net_task.rs:446-455 | A target outside the batch takes everything that is left |
| `Reorg.SegmentsOfPath` | lib/node/net_task.rs:422-455 | A validly committed path whose oldest block was built on a mainchain block receives consecutive segments with nothing missing |
| `ReorgOntoAncestor.OlderBlockBeatsTip` | lib/archive/mod.rs:1529-1560 | An older block of the chain, validly committed, beats the tip if and only if its commitment has more total work and its parent was built on the mainchain; with more work but no such parent the rule fails; otherwise the tip stands |
| `ReorgOntoAncestor.OlderBlockIsBase` | lib/node/net_task.rs:361-388 | The meeting point of the tip and such an older block is the older block itself |
| `ReorgOntoAncestorExample.ItHappens` | lib/archive/mod.rs:1529-1560 | A concrete archive on which the middle block of a sidechain of three beats its tip |
| `Reorg.OntoItselfFails` | lib/node/net_task.rs:361-388 | When the new tip is the meeting point, the oldest planned block is a genesis block, which never connects on it |
| `PathIndependence.World.ReorgCanonical` | lib/node/net_task.rs:319-495 | If the state was the one that connecting its tip's chain from genesis gives, so is the state after any attempted reorganisation, successful or abandoned |
| `PathIndependence.World.OwnSegment` | lib/node/net_task.rs:444-455 | Every block on a planned path is handed the mainchain segment that depends on that block alone |
| `PathIndependence.World.BackCanonical` | lib/node/net_task.rs:414-416 | Disconnecting from a chain's state leads to the state of the shorter chain |
| `PathIndependence.RoundTripUndoes` | lib/node/net_task.rs:182-308 | If every block is new to its parent chain's state and mainchain events have an inverse, each disconnect inverts its connect on chain states |
| `PathIndependence.FollowTips` | lib/node/net_task.rs:319-495 | After any sequence of validly committed tips the state depends on the final tip alone: it is what connecting its chain from genesis gives |
| `SideTips.DisconnectUndoes` | lib/archive/side_tips/mod.rs:258-352 | Disconnecting a mainchain block undoes connecting it exactly when it recorded no sidechain tip of its own |
| `SideTips.ReconnectedTipIsLost` | lib/archive/side_tips/mod.rs:194-352 | A recorded tip is missing from the ordered table after disconnect and reconnect, and the block cannot be disconnected again |
| `SideTips.ConnectDoes` | lib/archive/side_tips/mod.rs:194-300 | A mainchain block connects exactly if it follows the tip and a named sidechain block has a recorded parent; a block not yet recorded gets one row, one above its parent at the work reached, in both tables |
| `SideTips.DisconnectDoes` | lib/archive/side_tips/mod.rs:293-352 | Disconnecting succeeds exactly if the caller names the block before, the named sidechain block is recorded, in the ordered table too if this block recorded it, and the work is covered; it steps back by one block and its work and takes a tip that this block recorded out of the ordered table only |
| `MainchainSync.ForkHash` | lib/node/mainchain_task.rs:280-297 | The common ancestor handed to the walk is the last common ancestor on one chain, and is never met on the way down otherwise |
| `MainchainSync.StopsAt` | lib/node/mainchain_task.rs:304-331 | On the way down the stop is met exactly at the computed depth |
| `MainchainSync.WalkDown` | lib/node/mainchain_task.rs:304-331 | Disconnects exactly down to the fork, newest first, or fails with the first failing step |
| `MainchainSync.NextBatch` | lib/node/mainchain_task.rs:342-355 | A batch is the next at most 32 ancestors, and is never empty while the target is ahead |
| `MainchainSync.CommitmentCounts` | lib/node/mainchain_task.rs:356-386 | A commitment counts exactly if the block named has a header and a body, its parent is recorded and the commitment verifies it |
| `MainchainSync.WalkUp` | lib/node/mainchain_task.rs:341-407 | Connects exactly the blocks above the fork in height order, despite batching, and terminates at the target |
| `MainchainSync.MainchainTask.SyncSideTipsToTip` | lib/node/mainchain_task.rs:269-417 | Emits exactly the disconnects and connects between the two tips, each block once, and fails exactly when one of these steps fails, then changing nothing |
| `MainchainUndo.UpThenDown` | lib/archive/side_tips/mod.rs:258-352 | Disconnecting a mainchain block right after connecting it restores the tables if and only if it names no sidechain block, or one that another mainchain block had recorded |
| `MainchainUndo.PassedOverIsStuck` | lib/node/mainchain_task.rs:356-386 | A mainchain block whose commitment was passed over, to a block that is not recorded, fails to be disconnected |
| `MainchainUndo.DownExactly` | lib/node/mainchain_task.rs:304-331 | One disconnect fails only for a missing info or a missing row |
| `MainchainUndo.DownsExactly` | lib/node/mainchain_task.rs:304-331 | The whole way down succeeds if and only if at the start every block on it has an info and names nothing or a recorded block, in the ordered table too if that block recorded it |
| `MainchainUndo.UpsExactly` | lib/node/mainchain_task.rs:341-407 | With all commitments judged, the way up succeeds if and only if the infos ahead are stored |
| `MainchainUndo.SyncsExactly` | lib/node/mainchain_task.rs:269-417 | With all commitments judged, following a stored tip succeeds if and only if nothing on the way down is missing and, if there is a way up, the info of the target is stored |
| `MainchainUndoExample.GenesisIsStuck` | lib/node/mainchain_task.rs:356-386 | A concrete archive whose mainchain genesis block connects and cannot be disconnected |
| `MemPool.PutStxosSucceeds` | lib/mempool.rs:97-113 | Recording inputs succeeds exactly when they are unspent and distinct |
| `MemPool.PutAddressesExact` | lib/mempool.rs:132-159 | The address index stays exact exactly when the transaction was new or its former addresses are still among its addresses |
| `MemPool.DeleteSpentExact` | lib/mempool.rs:116-128 | Deleting a transaction's inputs leaves exactly the inputs of the others |
| `MemPool.DeleteAddressesExact` | lib/mempool.rs:162-193 | Dissociating a transaction leaves exactly the other associations and no empty row |
| `MemPool.SpendersOf` | lib/mempool.rs:230-240 | Looking up the outputs finds exactly the transactions that spend them |
| `MemPool.CascadeDone` | lib/mempool.rs:222-244 | When nothing is queued, exactly the dependants of the root are gone |
| `MemPool.MemPool.Put` | lib/mempool.rs:195-220 | Fails exactly for double spends, changing nothing; otherwise adds the transaction and keeps both tables exact |
| `MemPool.MemPool.Delete` | lib/mempool.rs:222-244 | Terminates having removed precisely the transaction and everything that depends on it; both tables stay exact |
| `MemPool.MemPool.TxsRelevantTo` | lib/mempool.rs:273-299 | Returns exactly the pending transactions of an address; none is ever missing |
| `LineBuffer.LinesSplit` | app/line_buffer.rs:70-70 | Splitting loses nothing, newlines only end lines, and only the last line may lack one |
| `LineBuffer.LinesGlue` | app/line_buffer.rs:72-92 | Splitting a text and its continuation separately gives the lines of the whole |
| `LineBuffer.LastGlue` | app/line_buffer.rs:93-99 | Dropping old lines early makes no difference |
| `LineBuffer.LineBuffer.Write` | app/line_buffer.rs:64-106 | However text is cut into writes, the buffer holds the last lines of all of it, one fewer than the limit; invalid text changes nothing; it panics exactly for a limit of zero |
| `LineBuffer.LineBuffer.LengthsAgree` | app/line_buffer.rs:11-17 | Recorded lengths add up to the buffer length |
| `Wallet.SortedRows` | lib/wallet.rs:875-900 | Collected coins are sorted by value and each is listed once |
| `Wallet.TakeCoins` | lib/wallet.rs:902-918 | Coins are taken in order until they cover the value; not enough are taken only when all are |
| `Wallet.Wallet.SelectBitcoins` | lib/wallet.rs:870-925 | Reports missing funds exactly when eligible coins do not cover the value; a selection sums to its total, prefers confirmed and smaller coins, and its last coin was needed |
| `Wallet.Wallet.CreateTransferTo` | lib/wallet.rs:653-676 | Inputs balance outputs plus fee exactly; the first output pays the amount, and the only other one, if any, is bitcoin change without a memo; missing funds are reported exactly |
| `Wallet.Wallet.SpendUtxos` | lib/wallet.rs:1468-1508 | Moves listed coins one by one as specified |
| `Wallet.SpendAllMoves` | lib/wallet.rs:1468-1508 | Every listed coin moves to the spent table of its kind with the first inpoint listed for it |
| `Wallet.SpendAllSame` | lib/wallet.rs:1468-1508 | Outpoints that are not listed keep all their rows |

## Left out

- HeaderTree.LastCommonAncestor: heights are at most 2^31, so that the sum in the binary search fits 32 bits; the code does not check this either.
- Archive.Archive.PutHeader: the caller does not put an invalidated block again, and a block that would exceed the 32-bit height range is refused instead of wrapping.
- Archive.Archive.PutMainHeaderInfo: the height inside a mainchain header is taken to agree with its depth when tips are followed; the archive itself computes heights from parents.
- Archive.Archive.PutBody: the sidechain tips that a stored body connects (`lib/archive/mod.rs:742-811`) are not modelled.
- Archive.Archive.DeleteBody: the sidechain tips that a deleted body disconnects (`lib/archive/mod.rs:832-850`) are not modelled.
- Invalidation.DeleteUndoesPut: says nothing of sidechain tips, for the same reason.
- Rollback.RollBack.PopUndoesPush: histories are values that the asset tables store anew, as the original writes them back to its tables; the variant stamped with heights only is the same structure and is not repeated.
- DutchAuction.RevertBidUndoes: histories inside auctions are values, because the original stores them by value in its tables.
- Effects.EffectUndone: the assets that a transaction names are derived from its spent outputs as in the original, but the check that output totals add up (`lib/types/transaction/mod.rs:1220-1400`) is not modelled.
- State.State.Connect: what the outputs of a filled transaction hold, the merkle root, the keyed hash, the fee of a valid transaction, the body size test and signature verification are parameters (`StateDb.Rules`).
- State.State.DisconnectTip: heights are unbounded naturals; the overflow of a 32-bit block height is not modelled.
- OutPointOrder.KeyInjective: the 32-byte hash inside a key is one opaque number; its position in the key is kept.
- StateOutputs.ConnectExact: the outpoints that the block creates are new and its transaction ids distinct; a block that creates an existing outpoint would overwrite its row.
- StateValidation.PrevalidateExact: the value of a withdrawal output stands for its payout with the mainchain fee added, which is what the original sums.
- StateRoundTrip.DisconnectRestoresExactly: transaction ids and outpoints of the block are new and distinct, and stored reservations match their outputs; that they stay so is `StateRuns.ConnectKeepsMatch`.
- PathIndependence.FollowTips: every stored sidechain block was built on some mainchain block, the tips followed are validly committed, and mainchain events are undone by an inverse that is a parameter.
- MainchainUndo.SyncsExactly: a verdict is held for every stored commitment to a block whose body is stored; without it one connect fails exactly as `MainchainSync.Env.CommitmentAt` says.
- Reorg.Node.ReorgToTip: two-way-peg deposits and withdrawals appear as an effect on coins that may fail; their tables, the mempool updates and the notification messages are not modelled. The best verification of each block is given as a map.
- MainchainSync.MainchainTask.SyncSideTipsToTip: progress counters and the closing of the event channel are not modelled.
- MemPool.MemPool.Put: a transaction id determines the transaction but not its signatures.
- LineBuffer.LineBuffer.Write: validity of UTF-8 is a parameter; a writer whose buffer is gone, which accepts and drops everything, is not modelled.
- Wallet.Wallet.SelectBitcoins: confirmed and unconfirmed outpoints are disjoint; an outpoint in both would be counted twice.
- Wallet.Wallet.CreateTransferTo: the new address is a parameter; builders for asset, pool and auction transactions are not modelled.
- LMDB, serialisation and their errors: tables are maps, and a failed operation changes nothing.
- Block locators and missing-body queries of the archive: plain walks over ancestors.
- Signatures, hashing, key derivation, networking, RPC, the user interface, progress reporting and version checks: no part of the chain rules.
