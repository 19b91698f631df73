# Verified models of the AIB node's ledgers and protocols

Dafny models of six parts of the repository, with proofs of what they promise: the limit order book, the
payment channels with their HTLCs and settlements, the Merkle trees, the finality gadget, the account state
with its snapshots and transaction executor, and two small pieces of money arithmetic.

Each part has the same layout. What an operation computes is a function on values; what the part promises is
proved about those functions, for every input, every step and every run; and the operations that change state
in the source are methods, with the source's loops, on classes with the source's fields, each proved to do what
its function says. Hash functions, signature checks, clocks, random ids and the answers of the multi-signature
locker are parameters about which nothing is assumed; a fixed output length of the hash is a hypothesis of the
two binding lemmas only. 64-bit arithmetic wraps explicitly (module `Word64`).

| file | contents |
|---|---|
| `Common.dfy` | 64-bit words, results, sums over maps, queues and sorted price lists |
| `OrderModel.dfy`, `OrderInvariants.dfy`, `OrderMatching.dfy` | the order book as values, its invariant, the matching loop |
| `OrderAcceptance.dfy` | which orders are accepted and cancelled, and what they come to |
| `OrderSweep.dfy`, `OrderArrival.dfy` | price priority and time priority |
| `OrderRuns.dfy`, `OrderDepth.dfy`, `OrderFairness.dfy` | what else holds over runs |
| `OrderBook.dfy` | the order book as classes |
| `ChannelSteps.dfy`, `SettlementTerms.dfy` | when each step is accepted and everything it changes |
| `ChannelModel.dfy`, `ChannelProofs.dfy`, `ChannelAccounts.dfy`, `ChannelReserve.dfy`, `ChannelWitnesses.dfy` | channels, where their balances come from, HTLC reserve, runs that surprise |
| `Settlement.dfy`, `SettlementOnce.dfy` | settlements, what the locker is asked for, and how often a channel is paid out |
| `ChannelManager.dfy`, `SettlementManager.dfy` | the channel and settlement managers as classes over channel, HTLC, dispute and settlement objects |
| `Merkle.dfy` | both root algorithms, proof generation and verification |
| `Finality.dfy`, `FinalityOrder.dfy` | vote handling, quorum intersection, agreement, independence of delivery order |
| `AccountModel.dfy`, `AccountReads.dfy`, `StateManager.dfy` | snapshots, what is read back, heap ownership |
| `Executor.dfy`, `ExecutorGas.dfy` | transaction execution, and its cost in numbers |
| `FeeBurn.dfy`, `Amounts.dfy` | fee split and epoch settlement; decimal printing and parsing |

## Where the code and its comments differ

The models follow the code; each difference has a lemma that says exactly when the promise holds.

- Sell takers are said to get the highest bid first. The bid list is descending and is searched from its tail,
  so they get the lowest bid in reach first: `SellPriorityExactly`, `SellerMissesHighBid`.
- Price 0 is both the level where an unpriced market order rests and the answer "no match". A price-0 level in
  reach hides its whole side (`MatchIsSweep`); the next order on the other side then rests unmatched and the book is
  crossed, unless it sells above every bid (`PlaceKeepsUncrossedExactly`). `CrossingRun` is such a run of two orders.
- Fills do not lower a level's `totalQty`: it is what waits plus what has traded there, as a uint64
  (`RunKeepsDepth`, `DepthExactly`, `OverstatedDepth`).
- The balance comparisons of channels are on wrapped sums (`UpdateKeepsTrueSum`, `CloseKeepsTrueSum`,
  `OpenWithinMaximumExactly`; `OversizedChannel`, `InflatedBalances`), and the test for a negative available balance is
  on an unsigned number (`AvailableExactly`, `BalanceTestExactly`; `OverdraftRun`).
- A closed channel's balances can still move (`ClosedMovesExactly`, `ClosedMovesRun`).
- A settlement is paid before the channel manager is asked to close, and the close spends the channel once more: a
  settlement that closes its channel has paid it twice (`ExecutionPaysExactly`, `OrdinaryRunPaysTwice`), one whose close
  is refused leaves it open to be paid again (`PaidTwiceRun`). `PaidAtMostOnceExactly` says what can still be paid.
- A forced settlement is to wait for its challenge end; executing it does not (`ForcedPaidExactly`, `ForcedEarlyRun`).
- A deployment is said to store the contract's code; where the new address has no account yet, nothing is stored
  (`DeployedCodeExactly`, `FirstDeploymentLost`).
- The payout ceiling is raised to one satoshi, which can exceed the 7 percent target (`AprWithinTargetExactly`,
  `YieldBeyondTarget`).

## Model

| member | source | states |
|---|---|---|
| OrderInvariants.BestPriceIsLeastEligible | pkg/channel/orderbook.go:665-702 | on a well-formed side the price found is the lowest one the taker accepts, for buyers and sellers alike, and 0 when there is none |
| OrderInvariants.RemoveKeepsShape | pkg/channel/orderbook.go:430-456 | taking an order that is no longer active out of its level restores the agreement of lists, levels, index and orders |
| OrderInvariants.AddKeepsShape | pkg/channel/orderbook.go:340-371 | resting an order keeps that agreement: lists stay strictly sorted and list exactly the levels, the index holds exactly the queued ids with their nodes |
| OrderMatching.NextMaker | pkg/channel/orderbook.go:641-649 | the order the loop trades with is an active order of the opposite side, first in the queue of the lowest price in reach |
| OrderMatching.PassKeepsShape | pkg/channel/orderbook.go:628-659 | each pass keeps the book well formed and strictly lowers what the taker still wants, so the loop ends |
| OrderMatching.Match | pkg/channel/orderbook.go:610-662 | matching keeps the book well formed, knows the same orders as before and ends only where no further pass is possible |
| OrderMatching.MatchKeepsIdentity | pkg/channel/orderbook.go:164-176 | matching changes nothing of the taker but its fill, which never falls, and its status |
| OrderMatching.PlaceKeepsShape | pkg/channel/orderbook.go:273-312 | placing a fresh order keeps the book well formed, whatever is refused, filled or left to rest |
| OrderMatching.CancelKeepsShape | pkg/channel/orderbook.go:398-427 | cancelling keeps the book well formed |
| OrderSweep.PassOnLadder | pkg/channel/orderbook.go:641-658 | a pass takes exactly the front offer off what the taker can reach, or fills the taker out of it |
| OrderSweep.StopMeans | pkg/channel/orderbook.go:628-645 | the loop stops exactly when the taker is filled, nothing is in reach, or a price-0 level is in reach |
| OrderSweep.MatchIsSweep | pkg/channel/orderbook.go:610-662 | the trades are, one by one, the greedy sweep of the offers in reach by price then arrival at the makers' prices, and what is left is what the sweep leaves; with a price-0 level in reach there is no trade |
| OrderSweep.SellPriorityExactly | pkg/channel/orderbook.go:676-698 | a seller gets the highest-bid-first trades of the comments if and only if at most one bid price is in reach and it is not 0 |
| OrderRuns.SellerMissesHighBid | pkg/channel/orderbook.go:692-698 | after orders to buy at 10 and at 20 a seller asking 5 does not get the promised trades |
| OrderRuns.Run | pkg/channel/orderbook.go:207-220 | every run of placing fresh orders and cancelling keeps the book well formed |
| OrderRuns.RunKeepsLedger | pkg/channel/orderbook.go:720-767 | over every run each order's fill is the sum of the logged trades naming it, and trades name known orders only |
| OrderRuns.RunKeepsDone | pkg/channel/orderbook.go:398-427 | a cancelled or filled order never changes again |
| OrderRuns.RunKeepsUncrossed | pkg/channel/orderbook.go:301-306 | in every run whose accepted orders carry a price, all resting bids stay strictly below all resting asks |
| OrderRuns.PlaceKeepsUncrossedExactly | pkg/channel/orderbook.go:303-306 | an order crosses an uncrossed book if and only if it is accepted, a price-0 level on the other side is in its reach, and it does not sell above every bid |
| OrderRuns.CrossingRun | pkg/channel/orderbook.go:631-635 | an unpriced market sell and then a buy at 10 leave a crossed book |
| OrderRuns.PlaceKeepsSoundExactly | pkg/channel/orderbook.go:303-306 | a book that is uncrossed and has no price-0 level stays so if and only if the order has a price, is refused, or can be filled entirely |
| OrderDepth.PlaceConserves | pkg/channel/orderbook.go:720-731 | placing takes from the resting side exactly what it fills and adds to its own side exactly what is left |
| OrderDepth.CancelConserves | pkg/channel/orderbook.go:430-456 | cancelling takes away exactly what the order still wanted, from its own side only |
| OrderDepth.RunKeepsDepth | pkg/channel/orderbook.go:340-371 | over every run a level's cached quantity is what waits there plus what has traded there since its creation, modulo 2^64 |
| OrderDepth.DepthExactly | pkg/channel/orderbook.go:559-602 | the reported depth is at least what rests if and only if that and what has traded there, modulo 2^64, do not wrap together; and equal to it if and only if a multiple of 2^64, so usually nothing, has traded there |
| OrderDepth.OverstatedDepth | pkg/channel/orderbook.go:652-658 | a sell of 10 and a buy of 4 at one price: 6 rest, 10 are reported |
| OrderDepth.DepthNeverUnderstates | pkg/channel/orderbook.go:559-602 | so, while what rests and what has traded fit in 64 bits, depth is never understated and is exact until the first fill |
| OrderFairness.RunIsFair | pkg/channel/orderbook.go:720-767 | over every run every logged trade is between orders of opposite sides, within both limits, for a positive quantity, with the right owners and the earlier order as maker |
| OrderArrival.RunKeepsOrder | pkg/channel/orderbook.go:340-371 | over every run each queue is exactly the accepted orders of its side and price that are still active, in order of acceptance |
| OrderArrival.WaitingWithout | pkg/channel/orderbook.go:430-456 | an order that stops being active leaves its queue and the others keep their order |
| OrderAcceptance.PlaceAcceptsExactly | pkg/channel/orderbook.go:314-337 | an order is accepted if and only if it has a quantity, an owner and, if it is a limit order, a price; otherwise the first error that applies, and nothing changes |
| OrderAcceptance.PlaceSweeps | pkg/channel/orderbook.go:273-312 | an accepted order makes the trades of the sweep over its whole quantity, or none behind a price-0 level; its fill and status are what they add up to |
| OrderAcceptance.PlaceRecords | pkg/channel/orderbook.go:297-311 | its trades are logged in that order, it is known as returned, and it rests if and only if it is not filled |
| OrderAcceptance.InReachExactly | pkg/channel/orderbook.go:665-717 | which prices a taker can reach, by side, kind and limit |
| OrderAcceptance.RunKeepsMarks | pkg/channel/orderbook.go:164-176 | over every run an order is Pending only unfilled and PartialFilled only part filled |
| OrderAcceptance.CancelAcceptsExactly | pkg/channel/orderbook.go:398-416 | an order is cancelled if and only if it is known, pending or part filled, and asked for by its owner; otherwise the first error that applies, and nothing changes |
| OrderAcceptance.CancelEffect | pkg/channel/orderbook.go:418-427 | a cancelled order keeps its terms and fill and rests no longer; no other order, queue place or trade changes |
| OrderFairness.EveryRun | pkg/channel/orderbook.go:207-220 | all of these run invariants together, from the empty book |
| OrderBooks.LiveOrder.Fill | pkg/channel/orderbook.go:164-176 | fills in place by the smaller of the quantity and what remains |
| OrderBooks.FindBestPrice | pkg/channel/orderbook.go:665-702 | the two scanning loops |
| OrderBooks.SortPriceList | pkg/channel/orderbook.go:375-395 | the exchange sort gives a sorted rearrangement |
| OrderBooks.SortInserts | pkg/channel/orderbook.go:362-365 | on a sorted list with a new price appended, that is insertion in order |
| OrderBooks.RemovePrice | pkg/channel/orderbook.go:459-473 | removes the price where it stands and nothing else |
| OrderBooks.PushToLevel | pkg/channel/orderbook.go:354-370 | gets or creates the level and appends the order |
| OrderBooks.OrderBook.ExecuteTrade | pkg/channel/orderbook.go:720-767 | fills both orders in place by the smaller remaining quantity and logs the trade |
| OrderBooks.OrderBook.RemoveOrderFromBook | pkg/channel/orderbook.go:430-456 | takes the step of the value model |
| OrderBooks.OrderBook.AddOrderToBook | pkg/channel/orderbook.go:340-371 | takes the step of the value model |
| OrderBooks.OrderBook.MatchOnce | pkg/channel/orderbook.go:628-659 | one round of the loop: the pass of the value model, or nothing left to do |
| OrderBooks.OrderBook.MatchOrder | pkg/channel/orderbook.go:610-662 | the loop computes the matching of the value model, hence the greedy sweep |
| OrderBooks.OrderBook.PlaceOrder | pkg/channel/orderbook.go:273-337 | places as the value model does, with every refusal |
| OrderBooks.OrderBook.CancelOrder | pkg/channel/orderbook.go:398-427 | cancels as the value model does, with every refusal |
| ChannelProofs.StepKeeps | pkg/channel/state_channel.go:129-190 | every manager and HTLC step keeps channels, runtime states and disputes consistent (state hash up to date until closed) and lets each channel evolve only forward |
| ChannelProofs.RunConserves | pkg/channel/state_channel.go:221-272 | over every run a channel's balances keep their uint64 sum, its parties stay and its status never goes back |
| ChannelProofs.OpenedValueStays | pkg/channel/state_channel.go:129-190 | a channel is worth its opening deposits at the end of every run |
| ChannelProofs.UpdateKeepsTrueSum | pkg/channel/state_channel.go:255-266 | an accepted state keeps the true sum if and only if its own sum wraps exactly when the channel's did |
| ChannelProofs.CloseKeepsTrueSum | pkg/channel/state_channel.go:324-329 | the same for the state a channel is closed with |
| ChannelProofs.OpenWithinMaximumExactly | pkg/channel/state_channel.go:135-138 | an opened channel is within the largest channel value if and only if its deposits do not wrap |
| ChannelWitnesses.OversizedChannel | pkg/channel/state_channel.go:135-138 | deposits whose sum wraps open a channel beyond the maximum |
| ChannelWitnesses.InflatedBalances | pkg/channel/state_channel.go:255-266 | a run in which 10 and 10 become 2^64 - 1 and 21, by update or by close |
| ChannelProofs.TransferPays | pkg/channel/state_channel.go:618-664 | an accepted transfer takes exactly its amount from the payer, one sequence number on; the payee gets exactly it if and only if its balance does not wrap |
| ChannelProofs.ResolvePays | pkg/channel/state_channel.go:489-534 | the honest party gets the whole value |
| ChannelProofs.RunKeepsDispute | pkg/channel/state_channel.go:367-414 | over every run a dispute keeps its evidence and dates and, once resolved, is final |
| ChannelProofs.DisputeTiming | pkg/channel/state_channel.go:489-534 | no second dispute; resolution only at or after the challenge end |
| ChannelProofs.RunRaisesSequence | pkg/channel/state_channel.go:245-265 | until closed, the sequence number never falls in a run in which it does not reach the last uint64 |
| ChannelProofs.ClosedRefuses | pkg/channel/state_channel.go:299-313 | a closed channel refuses every step that needs it alive |
| ChannelProofs.ClosedMovesExactly | pkg/channel/htlc.go:713-765 | a closed channel's balances move if and only if the step brings the preimage of a pending HTLC of some amount, or names a party honest, from the challenge end on, in an unresolved dispute whose other party still holds something |
| ChannelWitnesses.ClosedMovesRun | pkg/channel/htlc.go:713-765 | a run from no channels: closed at 10 and 10, then 4 and 16 |
| ChannelProofs.HtlcLifecycle | pkg/channel/htlc.go:713-834 | an HTLC keeps its terms, completes only against its lock, expires only in time, and once settled stays settled |
| ChannelSteps.OpenExactly | pkg/channel/state_channel.go:129-190 | opened if and only if both deposits reach the minimum, their uint64 sum is within the maximum, the id is new and the funding succeeds; with these deposits, number 0 and a hash of them |
| ChannelSteps.UpdateExactly | pkg/channel/state_channel.go:221-272 | accepted if and only if the channel is open or closing, the state is for it, has a higher number, both signatures and the same uint64 sum; the number strictly rises |
| ChannelSteps.ReplayRefused | pkg/channel/state_channel.go:245-248 | whatever runs in between, no state with the number of an installed one or a lower one replaces it, while the number does not wrap |
| ChannelSteps.CloseExactly | pkg/channel/state_channel.go:299-364 | accepted if and only if the channel is not closed, the state is for it, signed by both, keeps the sum, and the locker agrees; the number is not compared and the hash stays |
| ChannelSteps.DisputeExactly | pkg/channel/state_channel.go:367-414 | accepted if and only if the channel is open or closing and the evidence is signed by both and newer; what is recorded |
| ChannelSteps.ResolveExactly | pkg/channel/state_channel.go:489-534 | accepted if and only if there is an unresolved dispute whose end has come and a party is named; who gets what |
| ChannelSteps.TransferExactly | pkg/channel/state_channel.go:618-664 | accepted if and only if the channel is open and the payer has the amount; both balances, number and hash afterwards |
| ChannelSteps.ForceCloseExactly | pkg/channel/state_channel.go:667-703 | accepted if and only if the channel is open and the state is for it and signed by both; only deadline and status change |
| ChannelSteps.FinalizeExactly | pkg/channel/state_channel.go:706-733 | accepted if and only if the channel is closing and its deadline has come; only the status changes |
| ChannelSteps.AddHtlcExactly | pkg/channel/htlc.go:597-646 | listed if and only if the channel is open, the HTLC runs between its two parties under a new id, and its amount is within what subtracting all listed ones leaves, modulo 2^64 |
| ChannelSteps.CompleteExactly | pkg/channel/htlc.go:713-765 | paid if and only if it is pending and the preimage fits, in any status; from sender to receiver |
| ChannelSteps.ExpireExactly | pkg/channel/htlc.go:768-797 | expired if and only if it is pending and its time has come |
| ChannelSteps.RemoveExactly | pkg/channel/htlc.go:800-811 | unlists that HTLC and no other |
| ChannelSteps.SettleExpiredExactly | pkg/channel/htlc.go:814-834 | expires exactly the pending HTLCs whose time has passed |
| ChannelAccounts.RunExplained | pkg/channel/state_channel.go:221-364 | over every run a channel's balances are those last deposited, signed by both parties or awarded, less and plus exactly the transfers and completed HTLCs since |
| ChannelAccounts.OpenedExplained | pkg/channel/state_channel.go:129-190 | the same from the channel's opening, starting at the deposits |
| ChannelAccounts.MoveExplained | pkg/channel/state_channel.go:634-655 | a transfer or completed HTLC changes both balances by its amount, modulo 2^64 |
| ChannelAccounts.RunFounded | pkg/channel/state_channel.go:367-414 | in every run each dispute rests on evidence both parties signed, ends one challenge period after its start, and has a party as winner exactly once resolved |
| ChannelAccounts.ForcedCloseWaits | pkg/channel/state_channel.go:667-733 | whatever runs after a forced close, it is finalised no earlier than one challenge period later |
| ChannelReserve.AvailableExactly | pkg/channel/htlc.go:650-675 | the available balance is the true rest if and only if the listed amounts fit in the balance |
| ChannelReserve.BalanceTestExactly | pkg/channel/htlc.go:636-640 | AddHTLC's test is the intended one for all amounts under exactly that condition |
| ChannelWitnesses.OverdraftRun | pkg/channel/htlc.go:650-661 | a run from no channels in which a completed HTLC is still listed, nearly 2^64 counts as available out of 4, and a promise of 100 exceeds the reserve |
| ChannelReserve.AddKeepsCovered | pkg/channel/htlc.go:597-646 | with settled HTLCs removed, an accepted HTLC fits in what its sender has left |
| ChannelReserve.CompleteMovesExactly | pkg/channel/htlc.go:713-765 | completing a covered HTLC moves exactly its amount, with no wrap-around |
| ChannelReserve.ReserveHolds | pkg/channel/htlc.go:597-834 | in every run whose accepted steps are careful (settled HTLCs removed, no party taken below its reserve) the pending amounts of each party stay within its balance |
| SettlementModel.SysRunKeeps | pkg/channel/settlement.go:133-186 | over every run of all steps, settlements not forced by one side pay out the channel's value, and cooperative ones carry both signatures on their terms |
| SettlementModel.ExecutionConserves | pkg/channel/settlement.go:244-303 | executing asks the locker exactly for pending settlements; every call for a cooperative one, its own and that of the close after it, agreed to or not, spends the channel's value into outputs that add up to it and that both parties signed |
| SettlementModel.CloseAsks | pkg/channel/state_channel.go:353-362 | CloseChannel closes exactly if its own call to the locker is made and agreed to |
| SettlementTerms.BuildExactly | pkg/channel/settlement.go:133-241 | filed if and only if the channel is not closed, the state is for it, not older, of its value, signed by both, and nothing is pending; with the state's terms |
| SettlementTerms.ExecuteExactly | pkg/channel/settlement.go:244-287 | the locker is asked if and only if the settlement is pending, of whatever kind: for the channel's value, to A and to B as stored |
| SettlementTerms.ExecuteCloses | pkg/channel/settlement.go:289-303 | after the payment the channel is what CloseChannel makes of the settlement's own terms and time |
| SettlementTerms.ForceExactly | pkg/channel/settlement.go:306-368 | filed if and only if a signature is given and every given one is good; with the state's terms and a challenge end one period later |
| SettlementTerms.ConfirmForceExactly | pkg/channel/settlement.go:371-437 | paid if and only if it is forced, pending and its challenge end has come; to A and to B as stored |
| SettlementTerms.DisputeExactly | pkg/channel/settlement.go:440-515 | the locker is asked for every known channel; with a penalty all goes to the honest party, otherwise each party gets its balance; filed with that, the number and the stage |
| SettlementTerms.PenaltyGoesToHonest | pkg/channel/settlement.go:455-463 | with a penalty the honest party gets the whole value and the other one nothing |
| SettlementTerms.CancelExactly | pkg/channel/settlement.go:544-560 | cancelled if and only if pending |
| SettlementTerms.ConfirmExactly | pkg/channel/settlement.go:563-581 | completed if and only if confirming |
| SettlementOnce.ExecutionPaysExactly | pkg/channel/settlement.go:281-300 | a paid settlement pays its channel twice, for the same value and outputs, if and only if it closes it, which it does if and only if the channel was open, its terms add up, both signatures hold for its own time and the locker agrees; otherwise once |
| SettlementOnce.PaidAtMostOnceExactly | pkg/channel/settlement.go:244-303 | counting every agreed spend: over all cooperating runs from here a channel is paid at most once if and only if it is closed, and never if and only if, besides, no settlement is pending |
| SettlementOnce.ClosesOnce | pkg/channel/state_channel.go:299-364 | over every run of all steps the spend of CloseChannel is made at most once per channel |
| SettlementOnce.OrdinaryRunPaysTwice | pkg/channel/settlement.go:281-300 | opened, settled at the signed time, executed: closed, and paid twice |
| SettlementOnce.PaidTwiceRun | pkg/channel/settlement.go:290-300 | settled a second later: the close is refused on the settlement's own time, and the channel is built and paid again |
| SettlementOnce.DisputeSpends | pkg/channel/settlement.go:440-515 | a dispute settlement the locker agrees to spends the channel's whole value into outputs that add up to it, closed or not, paid before or not |
| SettlementOnce.DisputesPayWithoutEnd | pkg/channel/settlement.go:440-515 | so a channel is paid that way as many times as it is asked for |
| SettlementOnce.ForcedPaidExactly | pkg/channel/settlement.go:244-256 | a pending forced settlement is paid exactly by being executed, at any time, or confirmed from its challenge end on |
| SettlementOnce.ForcedWaits | pkg/channel/settlement.go:371-437 | in every run that does not execute it, it is paid no earlier than one challenge period after it was filed |
| SettlementOnce.ForcedEarlyRun | pkg/channel/settlement.go:244-303 | forced with a period of 1000 and executed at once: paid, and the channel closed |
| SettlementModel.SettlementLifecycle | pkg/channel/settlement.go:543-581 | stages move forward only, terms stay, and building never replaces a pending settlement |
| ChannelManagers.AvailableBalance | pkg/channel/htlc.go:650-675 | the subtraction loop, in any order of the map |
| ChannelManagers.ExpireAll | pkg/channel/htlc.go:823-831 | the expiry loop, in any order of the map |
| ChannelManagers.ChannelManager.Open | pkg/channel/state_channel.go:129-190 | adds one object for the channel and one for its state, with the deposits as its value, or refuses; all other channels keep their value and stand still |
| ChannelManagers.ChannelManager.Update | pkg/channel/state_channel.go:221-272 | rewrites the channel object in place with the signed terms; its value stays, its sequence rises, its hash is up to date, and the manager stays consistent |
| ChannelManagers.ChannelManager.Close | pkg/channel/state_channel.go:299-364 | in place; the value stays and the status ends at Closed, or nothing changes, also when the spend fails |
| ChannelManagers.ChannelManager.StartDispute | pkg/channel/state_channel.go:367-414 | adds one dispute object, never over another one, and freezes the channel without touching its value |
| ChannelManagers.ChannelManager.Resolve | pkg/channel/state_channel.go:489-534 | marks the dispute object resolved, once, and moves all of the unchanged value to the honest party |
| ChannelManagers.ChannelManager.Pay | pkg/channel/state_channel.go:618-664 | moves an amount inside the channel object, keeping its value and its hash up to date |
| ChannelManagers.ChannelManager.ForceClose | pkg/channel/state_channel.go:667-703 | in place; the status moves forward only and the value stays |
| ChannelManagers.ChannelManager.FinalizeClose | pkg/channel/state_channel.go:706-733 | in place; closes no channel before its challenge end and touches no balance |
| ChannelManagers.ChannelManager.AddHtlc | pkg/channel/htlc.go:597-646 | lists the caller's own object, which no other channel lists, after a check by the looped available balance |
| ChannelManagers.ChannelManager.Complete | pkg/channel/htlc.go:713-765 | writes the channel object and the HTLC object; the value stays, whatever the status, and no other HTLC changes |
| ChannelManagers.ChannelManager.Expire | pkg/channel/htlc.go:768-797 | writes the one HTLC object, not before its time; balances stay |
| ChannelManagers.ChannelManager.Remove | pkg/channel/htlc.go:800-811 | unlists the object and leaves it as it is; balances stay |
| ChannelManagers.ChannelManager.SettleExpiredHtlcs | pkg/channel/htlc.go:814-834 | the loop writes exactly the late pending HTLC objects of this channel; balances stay |
| ChannelManagers.StatesSplit | pkg/channel/htlc.go:704-711 | a state object taken out takes its HTLC objects with it: no other channel lists any of them, so writes through it reach no other channel |
| ChannelManagers.HtlcsJoin | pkg/channel/htlc.go:742-757 | an HTLC object written in place stands for its new value, and the others of its channel for their old ones |
| SettlementManagers.SettlementManager.Build | pkg/channel/settlement.go:133-186 | files a settlement object only for terms both parties signed and that add up to the channel's value, never over a pending one; every stored settlement stays balanced |
| SettlementManagers.SettlementManager.Execute | pkg/channel/settlement.go:244-303 | moves the stage of the object in place before it asks the manager to close, whose refusal leaves it paid; every stored settlement stays balanced |
| SettlementManagers.SettlementManager.ForceClose | pkg/channel/settlement.go:306-368 | files a forced settlement, which stays filed if the manager then refuses; all others stay balanced |
| SettlementManagers.SettlementManager.ConfirmForce | pkg/channel/settlement.go:371-437 | pays a forced settlement only after its challenge end, and moves its stage whether or not the close goes through |
| SettlementManagers.SettlementManager.ExecuteDispute | pkg/channel/settlement.go:440-515 | files and pays a settlement that adds up to the channel's value, with or without the penalty |
| SettlementManagers.SettlementManager.Cancel | pkg/channel/settlement.go:544-560 | changes the stage of a pending settlement in place and keeps its terms |
| SettlementManagers.SettlementManager.Confirm | pkg/channel/settlement.go:563-581 | changes the stage of a confirming settlement in place and keeps its terms |
| SettlementManagers.SettlementManager.StillValid | pkg/channel/settlement.go:243-281 | after any steps of the channel manager in between, every stored settlement is still balanced |
| Merkle.PairMakesParent | core/crypto/merkle.go:45-57 | a node and its sibling hash to their parent, also at the unpadded end of an odd level |
| Merkle.ProofAccepted | core/crypto/merkle.go:77-110 | for every non-empty list and index, the proof leads from the leaf to the root |
| Merkle.PositionBinding | core/crypto/merkle.go:118-133 | two inputs accepted for one root and index along proofs of equal length are equal or the paths contain a collision, whatever the sibling lengths |
| Merkle.RootBindsLeaves | core/crypto/merkle.go:64-73 | two lists of equal length with the same root are equal or the hash has a collision |
| Merkle.RootsAgree | pkg/airdrop/distributor.go:589-612 | the recursive root of the leaf hashes is the root of the level-by-level tree |
| Merkle.TreeExactly | core/crypto/merkle.go:37-73 | every stored node is the hash of its leaf or of its two children, left before right, a missing right one being the left one again; the root is the only node of the last level |
| Merkle.CopyOfLastLeaf | core/crypto/merkle.go:46-49 | appending a copy of the last leaf to an odd list longer than one keeps the root |
| Merkle.ParentLevel | core/crypto/merkle.go:51-57 | the fill loop builds the level above |
| Merkle.BuildMerkleRoot | pkg/airdrop/distributor.go:589-612 | the recursive algorithm, with its empty and single cases |
| Merkle.VerifyMerkleProof | core/crypto/merkle.go:118-133 | accepts exactly the proofs that lead to the root, for any index |
| Merkle.StandardMerkleTree.Build | core/crypto/merkle.go:37-61 | stores all levels up to the root |
| Merkle.StandardMerkleTree.Root | core/crypto/merkle.go:64-73 | the single node of the top level |
| Merkle.StandardMerkleTree.Proof | core/crypto/merkle.go:77-110 | refuses exactly the indices outside the list; its proofs lead to the root |
| Merkle.CollectSiblings | core/crypto/merkle.go:82-109 | the loop collects the siblings on the way up |
| Merkle.NewTree | core/crypto/merkle.go:17-34 | refuses exactly the empty list |
| Finality.QuorumsIntersect | cmd/aib-node/finality.go:128-132 | two sets with two thirds of the stake share a third of it |
| Finality.TallyIsWeight | cmd/aib-node/finality.go:119-123 | the tally of a hash is the stake of its distinct voters |
| Finality.ThresholdExact | cmd/aib-node/finality.go:124-128 | the uint64 comparison is the real two-thirds test when three times the stake fits in 64 bits |
| Finality.DeliverKeeps | cmd/aib-node/finality.go:82-133 | after any deliveries, what a tracker has finalised has a quorum of genuine delivered votes behind it |
| Finality.FinalizedNeverFalls | cmd/aib-node/finality.go:128-130 | the finalised height never falls |
| Finality.ConflictCostsAThird | cmd/aib-node/finality.go:82-133 | trackers that finalise different hashes at one height have recorded votes under both from a third of the stake |
| Finality.Agreement | cmd/aib-node/finality.go:82-133 | if hashes have one height and less than a third of the stake votes twice at any height, no two trackers ever disagree |
| FinalityOrder.FinalExactly | cmd/aib-node/finality.go:82-133 | a height is final if and only if, by the delivered votes alone, a block at that height or above has two thirds of the stake, whatever the order and repetitions |
| FinalityOrder.HandleRecords | cmd/aib-node/finality.go:98-117 | exactly the validators with stake whose genuine vote was delivered are recorded under each hash |
| FinalityOrder.CountsExactly | cmd/aib-node/finality.go:86-117 | a vote counts if and only if its key signed this height and hash, the voter is that key's address, has stake and is not recorded under the hash; otherwise nothing changes |
| FinalityOrder.RecordedHeight | cmd/aib-node/finality.go:117 | the height recorded for a hash is that of its counted votes |
| FinalityOrder.SameVotesSameHeight | cmd/aib-node/finality.go:119-132 | trackers that have seen the same votes have finalised the same height |
| FinalityOrder.SameVotesSameBlock | cmd/aib-node/finality.go:82-133 | and, with less than a third of the stake voting twice, the same block |
| Finality.FinalityTracker.FindStake | cmd/aib-node/finality.go:149-160 | the stake of the first validator with the address, or 0 |
| Finality.FinalityTracker.TotalStake | cmd/aib-node/finality.go:162-168 | the wrapped sum of all stakes |
| Finality.FinalityTracker.Tally | cmd/aib-node/finality.go:119-123 | the wrapped sum of the recorded stakes, in any order of the map |
| Finality.FinalityTracker.HandleVote | cmd/aib-node/finality.go:82-133 | takes the step of the value model |
| Finality.FinalityTracker.IsFinalized | cmd/aib-node/finality.go:136-140 | exactly the heights up to the finalised one, once there is one |
| AccountModel.RevertRestores | pkg/aal/state.go:237-281 | after any changes, snapshots and reverts, reverting to a live snapshot gives back exactly the accounts, root and older snapshots it was taken with |
| AccountModel.LiveExactly | pkg/aal/state.go:275-280 | a snapshot dies if and only if the world is reverted to it or to an older live one |
| AccountReads.StoreReads | pkg/aal/state.go:86-129 | after SetStorage the slot reads the value, and every other slot and everything else of every account reads as before |
| AccountReads.CodeReads | pkg/aal/state.go:144-168 | SetCode changes the code and its hash, which is empty for no code, and nothing else that can be read |
| AccountReads.NonceReads | pkg/aal/state.go:180-187 | SetNonce changes the nonce of an existing account and nothing else |
| AccountReads.BalanceReads | pkg/aal/state.go:199-213 | SetBalance changes the balance, creating the account if there is none, and nothing else |
| AccountReads.RunReads | pkg/aal/state.go:68-168 | over every run without a revert each slot reads the last value written to it |
| AccountReads.RevertReads | pkg/aal/state.go:258-281 | after a revert, the last value written since, starting from the one at the snapshot |
| StateManagers.Storage.Clone | pkg/aal/state.go:396-398 | a new map object with the same entries |
| StateManagers.Account.Clone | pkg/aal/state.go:379-401 | a new record with a new balance object and a new storage object, of the same value: nothing that can be written to is shared |
| StateManagers.CloneAll | pkg/aal/state.go:248-251 | new objects throughout, records, balances and storages, none shared between two accounts, with the same values |
| StateManagers.DropFrom | pkg/aal/state.go:275-280 | forgets exactly the snapshots from the given id on |
| StateManagers.StateManager.GetAccount | pkg/aal/state.go:56-65 | gives out a copy, or nothing where there is no account |
| StateManagers.StateManager.GetStorage | pkg/aal/state.go:95-108 | reads the slot, or zero where nothing was stored |
| StateManagers.StateManager.SetAccount | pkg/aal/state.go:68-74 | stores a copy; no snapshot changes |
| StateManagers.StateManager.DeleteAccount | pkg/aal/state.go:77-83 | removes one account; no snapshot changes |
| StateManagers.StateManager.SetStorage | pkg/aal/state.go:111-129 | writes in place into the storage object of the live account; no snapshot and no other account changes |
| StateManagers.StateManager.SetCode | pkg/aal/state.go:144-168 | writes in place into the live account only; no snapshot and no other account changes |
| StateManagers.StateManager.SetNonce | pkg/aal/state.go:180-187 | changes one nonce, or reports that there is no account |
| StateManagers.StateManager.SetBalance | pkg/aal/state.go:199-213 | changes one balance, creating the account if there is none |
| StateManagers.StateManager.TakeSnapshot | pkg/aal/state.go:237-255 | stores the present values in objects, storages and balances included, that no live account shares |
| StateManagers.StateManager.RevertToSnapshot | pkg/aal/state.go:258-281 | brings back the stored values in new objects, storages and balances included, or does nothing for an unknown id |
| ExecutorModel.ExecuteConserves | pkg/aal/evm.go:141-205 | an executed transaction lowers the sum of balances by exactly gas used times price, leaves no debt and never runs short inside; a refused one changes nothing |
| ExecutorModel.ExecuteShares | pkg/aal/evm.go:265-316 | sender, recipient and everybody else end up with exactly their share, also when sender and recipient are the same |
| ExecutorModel.AllConserve | pkg/aal/evm.go:141-205 | over any sequence of transactions the sum of balances falls by exactly the gas paid and nobody is in debt |
| ExecutorModel.ExecuteTouches | pkg/aal/evm.go:237-316 | besides balances only the sender's nonce moves, by one, and at most the created contract's code |
| ExecutorModel.DeployedCodeExactly | pkg/aal/evm.go:237-263 | deployed code is found at the reported address if and only if that address already had an account, or there is no code |
| ExecutorModel.FirstDeploymentLost | pkg/aal/abstraction.go:216-225 | a first deployment whose code is not stored |
| ExecutorGas.ExecutesExactly | pkg/aal/evm.go:141-163 | executed if and only if there is a sender, the gas limit is within the block's and covers 21000 (53000 for a creation) and the data, and the sender can pay value and all gas; otherwise the first error that applies |
| ExecutorGas.GasExactly | pkg/aal/evm.go:237-316 | a call uses 21000, 4 per zero byte, 16 per other byte and 3 per byte of the target's code, as a uint64, but at most its limit; a creation uses its limit |
| ExecutorGas.CallLeaves | pkg/aal/evm.go:173-178 | what sender and target of a call are left with |
| ExecutorGas.OthersLeave | pkg/aal/evm.go:173-178 | a call to oneself and a creation cost their gas only |
| ExecutorGas.CreationCodes | pkg/aal/evm.go:237-263 | code and hash at the created address, where there was an account and where there was none |
| ExecutorGas.PlainCallGivesBack | pkg/aal/evm.go:173-178 | a plain call with a limit of 100000 uses 21000 |
| ExecutorModel.CallKeepsTotal | pkg/aal/evm.go:266-316 | a call moves value without changing the total and uses at most the gas limit |
| ExecutorModel.DeployKeepsTotal | pkg/aal/evm.go:237-263 | a deployment moves no value and uses the whole gas limit |
| Executors.CalculateIntrinsicGas | pkg/aal/abstraction.go:492-509 | the gas loop, wrapped |
| Executors.AccountState.SubBalance | pkg/aal/abstraction.go:144-151 | debits a copy and stores it; without an account nothing happens |
| Executors.AccountState.AddBalance | pkg/aal/abstraction.go:154-167 | credits a copy, of a new account if need be, and stores it |
| Executors.AccountState.BumpNonce | pkg/aal/abstraction.go:188-195 | one nonce up, if there is an account |
| Executors.AccountState.SetCode | pkg/aal/abstraction.go:216-225 | stores code only where there is an account |
| Executors.AccountState.Transfer | pkg/aal/evm.go:408-411 | debit, then credit |
| Executors.EvmExecutor.DeployContract | pkg/aal/evm.go:237-263 | does what the value model says |
| Executors.EvmExecutor.CallContract | pkg/aal/evm.go:266-316 | does what the value model says |
| Executors.EvmExecutor.ExecuteTransaction | pkg/aal/evm.go:141-234 | does what the value model says and touches no snapshot, with every refusal |
| FeeBurn.SplitExact | pkg/economy/feeburn.go:45-75 | the payout is the smaller of the fees and the ceiling (at least 1), the burn is the exact rest, nothing is truncated |
| FeeBurn.CapExactly | pkg/economy/feeburn.go:45-60 | the raw ceiling is the largest amount within 7 percent a year of the stake |
| FeeBurn.YieldExactly | pkg/economy/feeburn.go:78-86 | the yield is the largest whole one the payout makes in a year |
| FeeBurn.SettleExactly | cmd/aib-node/feeburn_settle.go:27-56 | only at heights that 2880 divides, a day's share of at least one satoshi is paid and the rest burned |
| FeeBurn.CapBoundsApr | pkg/economy/feeburn.go:78-86 | a payout within the raw ceiling annualises to at most 7 percent of the stake |
| FeeBurn.AprWithinTargetExactly | pkg/economy/feeburn.go:53-74 | the realised yield is within 7 percent if and only if the raw ceiling is at least 1 or one satoshi per epoch is within it |
| FeeBurn.YieldBeyondTarget | pkg/economy/feeburn.go:53-74 | one satoshi in fees on a stake of one: a yield of 365 |
| FeeBurn.FeesAccountedFor | cmd/aib-node/feeburn_settle.go:27-66 | over every run the fees added are those waiting, paid and burned; no epoch's fees are dropped |
| FeeBurn.EverySatoshi | cmd/aib-node/mining_stats.go:66-76 | as long as all fees fit in 64 bits, every satoshi added is waiting, paid or burned, with no wrap-around |
| FeeBurn.EpochFees.AddFee | cmd/aib-node/feeburn_settle.go:58-60 | the fee is recorded, and all fees of the history are still waiting, paid or burned, to the satoshi while they fit in 64 bits |
| FeeBurn.EpochFees.SettleEpochFees | cmd/aib-node/feeburn_settle.go:27-56 | at an epoch boundary nothing stays waiting and all fees of the history are paid or burned; elsewhere nothing changes |
| Amounts.FormatThenParse | pkg/cli/client.go:227-291 | every uint64 amount is read back as it was printed, with no overflow |
| Amounts.FormatInjective | pkg/cli/client.go:227-246 | no two amounts are printed alike |
| Amounts.FormatMeans | pkg/cli/client.go:227-246 | the text is the whole units in decimal and, if there is more, a point and at most 18 decimals without trailing zeros |
| Amounts.ParseWhole | pkg/cli/client.go:281-290 | digits alone are whole units, modulo 2^64; too many are an error |
| Amounts.ParseDecimals | pkg/cli/client.go:255-279 | digits around a point, one side of which may be missing, are whole units and the first 18 decimals |
| Amounts.EmptyExactly | pkg/cli/client.go:249-253 | blank texts, and no others, are refused as empty |
| Amounts.FractionDigits | pkg/cli/client.go:240-241 | trimming trailing zeros and filling up again gives the same 18 digits |

## Left out

- Order ids, trade ids and timestamps made from the clock: callers give the id and the time; trades carry no id or time of their own.
- Duplicate order ids: the book never checks for them, so a fresh id, no fill and status Pending are what callers owe `PlaceOrder`.
- The pointer structure of a price level's linked list: a queue is a sequence of order ids, and the index names the level a node is in.
- Mutexes, and writes by callers through pointers to channels, HTLCs and settlements they were given or handed in.
- Order queries (`GetOrder`, `GetBids`, `GetAsks`) and the order book manager, which look books up and copy them out; expiry times, which matching never looks at.
- Whether a forced settlement conserves value: the source does not compare its balances with the channel.
- Whether the channel is closed after a settlement was executed: the source checks the signatures against the settlement's own time, so it may not be.
- Atomic swaps, the dispute and watchtower managers beyond the manager steps they call, and inference channels.
- The sparse Merkle tree: its prover, root and verifier use different sibling values, so there is no agreement to state.
- Hash and signature algorithms; the hexadecimal encoding of voters and keys in votes.
- Changes of the validator set while votes are counted, and the canonical-chain guard built on chain storage.
- The replacement of a balance's big integer on a private copy of an account: the model writes into that copy's integer.
- Aliasing of code slices given to `SetCode`, the state root computed over a map in no fixed order, access lists, logs and the UTXO converter.
- Characters outside ASCII in amounts.
- The mining statistics other than the two fee totals, and the display string of the yield.
