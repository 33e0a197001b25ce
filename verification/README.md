# Qlyphs Wallet: mint sessions, operations and accounts

A Dafny model of the parts of the Qlyphs Wallet extension that hold money at risk, with proofs of what they keep.

- **Mint session.** One approval lets the wallet sign up to `maxAttempts` payments, one at a time, under a spend cap.
  `SessionMachine` describes a session as steps between two awaits: the controller's, those of the rest of the wallet,
  of history and of the browser, writes that fail or land late, and crashes. `SessionSafety`, `SessionSteps` and
  `SessionReleases` hold its invariant and show that every step keeps it; `SessionGuarantees` says what follows in
  every reachable state, and `FinalWords` when history's last word on a payment stays. `SessionController` is the
  controller itself, a class whose methods only take those steps: whatever an `await` may bring happens inside `Await`,
  and what the node, the witnesses or the person answer is an arbitrary value or a parameter. `FinalityChecks` is what
  a round of its finality reads makes of a record, `Fates` what the chain's word on a released payment makes of it,
  `Admissions` what an admission decides, and `Verdicts` what a recorded verdict says of the mint right.
- **Ledger.** `MintTypes`, `SpendAccounting`, `SessionSnapshots` and `StoredLedger` are the stored record, its totals,
  the dapp's snapshot, the stored-record check, restart, stale ends, history resolution and pruning.
  `LedgerSoundness`, `HistoryResolution` and `SnapshotMeaning` prove their properties.
- **Chains.** `SpendWorld` states the spend cap over every chain there may be. `ChainSearch` is the search for a
  payment on proven ancestry and the fate of one that is not found. `Classification` is the verdict on an included
  payment, against what really happened to the mint right.
- **Attestation budget.** `AttestationBudget` is the rolling minute of witness calls.
- **Wallet.** `WalletOperations` is the job lifecycle, the wallet mutex, the settled-account gate, history
  synchronization, storage and restart, interleaved at every await. `AccountBooks` and `WalletBackups` are the accounts
  and their backups (`Sorting` is the sort both use). `SessionView` is what the wallet window infers after the end.

`dafny verify dfyconfig.toml` checks everything.

## Assumptions

- Of chains (`SpendWorld.Lawful`): a block's hash fixes its ancestry; a payment runs after its birth block, on chains
  that contain it, at most once per chain; each success credits one lot to the owner and nothing else takes the
  owner's tokens; a success debits its fixed fee and ticket.
- Of attestations and proofs (`SessionMachine.Truthful`): proven headers and bodies are the chain's, attested balances
  are true at the attested block, and no two signatures have the same hash. The node's nonces, tips, final blocks and
  canonical hashes are arbitrary, except in the search theorems, which say which claims they need.
- Of the mint right (`Classification.Lawful`): one use per block, the next right anchored at the using extrinsic, no
  right once everything is minted.
- Terms satisfy 1 <= maxLots <= 25 and maxLots <= maxAttempts <= maxLots + min(maxLots, 10), as their parser has it.
- The clock of the attestation budget only goes forward.

## Findings

- The comment in `apps/extension/src/background.ts:807-810` says a final history status is never replaced. History
  synchronization keeps to it; the approvals do not. In a session a final entry keeps its word over a step exactly if
  the step is none of P14, P15 and `cancel` on that very payment (`apps/extension/src/mint-session.ts:1430`, `:1448`,
  `:1457`; `FinalWords.FinalWordStays`), and over a restart exactly if the word was saved (`FinalWords.SavedWordStays`).
  In a generic approval it keeps it exactly if the step is neither the mark before the broadcast nor the transport's
  answer (`apps/extension/src/background.ts:1527`, `:1537`; the `KeepsWords` clauses of every method of
  `WalletOperations.Wallet` that writes history). Such steps are reached
  (`FinalWords.FinalWordsAreReplaced`, `WalletOperations.SignedWordReopens`, `WalletOperations.SubmittedWordReopens`);
  the gate and the one-operation rule hold all the same.
- When the save in the catch of `approve` fails (`apps/extension/src/background.ts:1554-1557`), the mutex is released
  but the job is never finished: it stays, in phase `signing`, until a restart. Every signing job holds the mutex
  exactly as long as this never happened (`WalletOperations.Wallet.SigningHoldsTheMutex`); it does happen, and the next
  operation takes the mutex (`WalletOperations.JobIsLeftBehind`).
- A final history entry that contradicts a verdict does not always put every later payment that may have run in doubt:
  it does exactly if the verdict was not in doubt already, or another doubt or dispute reaches that payment
  (`HistoryResolution.ContradictionSpreads`). It fails of every ledger that a reorganization made doubt an open lot
  while the next payment was on its way (`HistoryResolution.DoubtedVerdictDoesNotSpread`).
- The view's answer errs in two ways (`SessionView.WindowMisjudgesTwo`). With nothing outstanding, everything is at rest
  exactly if no right was used without a lot in a block that may still leave the chain: the settle task follows such a
  payment, the view does not (`SessionView.NothingOutstandingMeansRest`). With everything at rest, something is still
  shown outstanding exactly if a lost race has no lot after it (`SessionView.RestShowsTrailingRaces`).

## Model

| member | source | states |
|---|---|---|
| `SpendAccounting.BoundDominates` | apps/extension/src/mint-session.ts:506-517 | no choice of at most count(minted) minted or lost-race payments is charged more than the admission bound |
| `SpendAccounting.BoundIsAttained` | apps/extension/src/mint-session.ts:506-517 | some such choice is charged exactly the bound, so the bound is the maximum |
| `SpendAccounting.LargestChargesDominate` | apps/extension/src/mint-session.ts:511-517 | the first m charges of the descending sort are the largest total of any m payments that could have succeeded |
| `SpendAccounting.LargestChargesAreAChoice` | apps/extension/src/mint-session.ts:511-517 | that total is reached by an actual choice of at most m such payments |
| `SpendAccounting.SortPermutes` | apps/extension/src/mint-session.ts:511-516 | the sort keeps every charge exactly as often as it occurs |
| `SpendAccounting.SortDescending` | apps/extension/src/mint-session.ts:512-515 | the sorted charges never increase and none is lost or added |
| `SessionSnapshots.CountsAreDisjoint` | apps/extension/src/mint-session.ts:590-637 | verified lots, verified lost races and open doubts are different attempts |
| `SessionSnapshots.AdmittingPrefix` | apps/extension/src/mint-session.ts:498-537 | payments that admitted a successor reserve nothing, and verified spends stay within the charges of the minted ones |
| `SessionSnapshots.PendingIsFollowed` | apps/extension/src/mint-session.ts:602-604 | the pending payment of a snapshot always has a status the session follows |
| `SessionSnapshots.LastIsNotFollowed` | apps/extension/src/mint-session.ts:605-607 | the last payment of a snapshot never has a status the session follows |
| `LedgerSoundness.SpendsStayWithinCap` | apps/extension/src/mint-session.ts:590-637 | spends plus bounded reserves never exceed maxSpend and lots never exceed maxLots |
| `LedgerSoundness.SnapshotStaysWithinTerms` | apps/extension/src/mint-session.ts:590-637 | every snapshot passes the relations its readers check, and the room left under the cap is never negative |
| `StoredLedger.CheckRecord` | apps/extension/src/mint-session.ts:1832-1893 | the stored-record check accepts exactly the records that satisfy every relational rule |
| `StoredLedger.CheckSuccession` | apps/extension/src/mint-session.ts:1860-1871 | the loop over successive reservations accepts exactly ascending births, consecutive nonces, admitting verdicts and the lost-race allowance |
| `StoredLedger.CheckHistory` | apps/extension/src/mint-session.ts:1872-1885 | the loop over history accepts exactly records whose every hash has one history line, with the same owner, network, nonce and session |
| `LedgerSoundness.SoundRecordPasses` | apps/extension/src/mint-session.ts:1832-1893 | every record that keeps the session invariant passes the check, doubt counted and doubt aside |
| `LedgerSoundness.ReservationChains` | apps/extension/src/mint-session.ts:1227-1295 | an admitted reservation extends the record: numbers, nonces, births, caps and held balances stay linked |
| `LedgerSoundness.DoubtFromStands` | apps/extension/src/mint-session.ts:417-420 | putting a payment and the later ones that may have run in doubt changes nothing else and keeps the record sound |
| `LedgerSoundness.DoubtOpenStands` | apps/extension/src/mint-session.ts:423-429 | putting every inclusion not final yet in doubt changes nothing else and keeps the record sound |
| `LedgerSoundness.MarkFinalStands` | apps/extension/src/mint-session.ts:1559-1584 | an inclusion found final after every earlier one is final or doubted keeps finality in order |
| `LedgerSoundness.EndStands` | apps/extension/src/mint-session.ts:1960-1966 | ending a record cancels only attempts never released and keeps it sound |
| `LedgerSoundness.DoubtFromMeans` | apps/extension/src/mint-session.ts:417-420 | exactly the payment and the later ones that were sent, included or judged by the chain are put in doubt |
| `LedgerSoundness.DoubtOpenMeans` | apps/extension/src/mint-session.ts:423-429 | exactly the inclusions that are not final are put in doubt, and the record is flagged exactly if there is one |
| `LedgerSoundness.EndUnownedMeans` | apps/extension/src/mint-session.ts:1960-1966 | exactly the attempts reserved or signed are cancelled, and the record is over, interrupted, unless it had ended |
| `StoredLedger.Ledger.DoubtFromInPlace` | apps/extension/src/mint-session.ts:417-420 | the in-place doubt loop marks exactly the payment and the later ones that may have run |
| `StoredLedger.Ledger.EndAllOnRestart` | apps/extension/src/mint-session.ts:1970-1979 | at restart exactly the running records end, and the result says whether one did |
| `StoredLedger.Ledger.EndStale` | apps/extension/src/mint-session.ts:1982-1999 | exactly the running records of the account end, and exactly the lines of their signed attempts still marked signed are cancelled |
| `StoredLedger.Ledger.ResolveFromJournal` | apps/extension/src/mint-session.ts:2032-2063 | the in-place loops give every ended record history's word, attempt by attempt, and leave running ones; what that word is, the next two rows say |
| `HistoryResolution.DoubtsInFields` | apps/extension/src/mint-session.ts:2008-2063 | a payment is in doubt after resolution exactly if it was, or the history line of it, or of an earlier one and it may have run, refutes a recorded status: it ran though it never could, never ran though included, ran in another block, or another success or verdict |
| `HistoryResolution.FatesInFields` | apps/extension/src/mint-session.ts:2024-2063 | an unresolved payment becomes expired, cancelled or settled exactly as its history line is expired, cancelled or final, a doubted one settled; every other status stays |
| `StoredLedger.Ledger.PruneSettled` | apps/extension/src/mint-session.ts:2081-2090 | settled records are dropped oldest first until one more fits, and the free slots are counted |
| `HistoryResolution.ResolutionAddsNothing` | apps/extension/src/mint-session.ts:2024-2063 | resolution keeps every verdict and doubt, the bound and the counter, never raises verified lots or spends, and leaves running records alone |
| `HistoryResolution.ResolutionIsIdempotent` | apps/extension/src/mint-session.ts:2032-2063 | for a fixed history resolving twice is resolving once |
| `HistoryResolution.DoubtsAfterResolution` | apps/extension/src/mint-session.ts:2032-2063 | a payment ends in doubt exactly when it was before, or history disputes it or an earlier one and it may have run |
| `HistoryResolution.ContradictionSpreads` | apps/extension/src/mint-session.ts:2008-2063 | when final history contradicts a verdict, a later payment that may have run ends in doubt exactly if that verdict was out of doubt, or the payment was in doubt, or another dispute reaches it |
| `HistoryResolution.DoubtedVerdictDoesNotSpread` | apps/extension/src/mint-session.ts:2045-2050 | in every ledger that lost an open lot from the chain with the next payment on its way, history that expires that lot contradicts it and never doubts the later payment; the ledger passes the stored-record check |
| `HistoryResolution.TwoLotsAreOpen` | apps/extension/src/mint-session.ts:423-429 | there is such a ledger: one lot in an open block and the next one sent |
| `HistoryResolution.ResolvedRecordIsSound` | apps/extension/src/mint-session.ts:2032-2063 | resolution keeps the record and its history lines sound |
| `HistoryResolution.RestartedRecordIsSound` | apps/extension/src/mint-session.ts:1970-1979 | the restart end keeps the record sound against the restarted history |
| `HistoryResolution.StaleRecordIsSound` | apps/extension/src/mint-session.ts:1982-1999 | the stale end keeps the record sound against the lines it cancels |
| `HistoryResolution.StaleEntriesAreCancelled` | apps/extension/src/mint-session.ts:1982-1999 | the stale ends of an account cancel exactly the entries, still only signed, of what its running records signed |
| `HistoryResolution.PruningKeepsUnsettled` | apps/extension/src/mint-session.ts:2066-2090 | pruning never drops an unsettled record and stops with a free slot or nothing left to drop |
| `HistoryResolution.PruningIsExact` | apps/extension/src/mint-session.ts:2081-2090 | pruning removes the oldest settled records, and as many as leave room for one more of eight, or all of them |
| `HistoryResolution.SettledMeans` | apps/extension/src/mint-session.ts:2066-2080 | a record is settled exactly if it ended and each of its hashes has a history line that is finalized, expired or cancelled |
| `SessionGuarantees.NothingIsStale` | apps/extension/src/mint-session.ts:1982-1999 | once no controller runs a record it has ended, in every run, so the stale end of a later approval changes nothing of it |
| `SessionGuarantees.PrunedRecordIsOver` | apps/extension/src/mint-session.ts:2066-2090 | in every run a record that may be pruned has ended and history finalized everything it released |
| `SpendWorld.CapHoldsOnEveryChain` | apps/extension/src/mint-session.ts:1227-1244 | lemma S: on every chain the payments that really succeeded debit at most maxSpend and are at most maxLots |
| `SpendWorld.WinnersBelowAreMinted` | apps/extension/src/mint-session.ts:1229-1231 | the held check: below a later success no more payments succeeded than the record counts as minted |
| `SpendWorld.EarlierWinIsRecorded` | apps/extension/src/mint-session.ts:1203-1211 | the lineage proof: below a later success an earlier one sits in its recorded block, above the first birth |
| `SpendWorld.EarlierWinsAreHeld` | apps/extension/src/mint-session.ts:1229-1231 | the birth block of a later success holds one lot more for each earlier success |
| `SpendWorld.HashesAreDistinct` | apps/extension/src/mint-session.ts:1227-1229 | strictly increasing births make the payments of one session different |
| `SpendWorld.SomeWorldIsLawful` | apps/extension/src/mint-session.ts:1227-1231 | the assumptions made of chains hold of a chain on which a payment of the session succeeds |
| `ChainSearch.FindInclusion` | apps/extension/src/mint-session-chain.ts:228-258 | the binary search answers the payment's block and index, pending, replaced or unprovable exactly as the chain has it, and any position it names is proven whatever nonces the node claims |
| `ChainSearch.FirstUseOfNonce` | apps/extension/src/mint-session-chain.ts:220-227 | the block that holds the payment is the first one whose nonce is past it |
| `ChainSearch.AnswerDecidesPresence` | apps/extension/src/mint-session-chain.ts:220-227 | when the window is provable the payment is on the chain exactly when a position is answered |
| `ChainSearch.AnswerIsUnique` | apps/extension/src/mint-session-chain.ts:228-258 | a chain admits one right answer only |
| `ChainSearch.LocatePayment` | apps/extension/src/mint-session-chain.ts:260-282 | while pending at the tip the fate is judged on the final chain; dead and expired are given only to payments no extension of that chain can hold |
| `ChainSearch.EraEndedForGood` | apps/extension/src/mint-session-chain.ts:276-279 | past the era with the nonce unused no lawful extension of the final chain ever holds the payment |
| `ChainSearch.OnAncestryMeans` | apps/extension/src/mint-session-chain.ts:172-184 | the reorganization watch holds exactly when every block is on the chain and within the provable depth |
| `ChainSearch.LineageMeans` | apps/extension/src/mint-session-chain.ts:186-210 | the lineage holds exactly if every inclusion is on the chain within the provable depth and the account's nonce is past the previous payment's |
| `Classification.ClassificationIsTrue` | apps/extension/src/mint-session.ts:1488-1537 | whichever blocks a classification reads, its verdict is what happened on the chain, and answers about another block decide nothing |
| `Classification.ExactVerdictIsTrue` | apps/extension/src/mint-session.ts:657-719 | every verdict at the inclusion block is what happened: minted, lost race, failed or right burned |
| `Classification.ExactVerdictIsComplete` | apps/extension/src/mint-session.ts:657-719 | with both attested states the verdict is exactly the truth, except sold out with a lot more held or with the last lot's right still current before the block |
| `Classification.VerdictAtBirthIsTrue` | apps/extension/src/mint-session.ts:640-652 | a success judged at a later block is one, and nothing used a right in between |
| `Classification.VerdictMatchesBalance` | apps/extension/src/mint-session.ts:657-663 | a success comes with one lot more held and minted, any other verdict with none held |
| `Classification.RightTellsUse` | apps/extension/src/mint-session.ts:677-718 | the right is still the payment's exactly while nobody used it, and a moved right lies above the birth block |
| `Classification.Classify` | apps/extension/src/mint-session.ts:1498-1537 | no verdict is given before the position is proven, and an answer that needs the parent is never final |
| `Classification.ClassificationDecides` | apps/extension/src/mint-session.ts:1498-1537 | with the position proven, the inclusion block attested and its parent where it is needed, the verdict is exactly the truth, outside the named sold-out cases |
| `Classification.ViewDecides` | apps/extension/src/mint-session.ts:640-652 | without the inclusion block a view gives a verdict exactly if nothing used a right since and the balance rose by one lot, and it is that the payment succeeded |
| `SessionSteps.ReservationGrounds` | apps/extension/src/mint-session.ts:1203-1211 | a reservation on a proven lineage has every earlier payment in its recorded block below its birth |
| `SessionReleases.StepKeeps` | apps/extension/src/mint-session.ts:1131-1480 | every step of the controller, the wallet, history and the environment keeps the whole session invariant |
| `SessionReleases.CallsStayCommitted` | apps/extension/src/mint-session.ts:1428-1460 | what was handed to the transport stays uncertain or further in memory, storage and every later write, over every step |
| `SessionReleases.ResolutionCarries` | apps/extension/src/mint-session.ts:2032-2063 | history can settle or expire a released payment but never call it unreleased |
| `SessionReleases.RestartKeepsCommitment` | apps/extension/src/background.ts:420-430 | the restart rules never cancel a payment that storage holds as perhaps released |
| `SessionSafety.InclusionsAscend` | apps/extension/src/mint-session.ts:1227-1228 | each inclusion is at most as high as the next birth, which is below the next inclusion |
| `SessionGuarantees.EveryCopyPassesTheValidator` | apps/extension/src/mint-session.ts:1832-1893 | whatever interleaving, failed write or crash left it, memory, storage and every write under way pass the stored-record check |
| `SessionGuarantees.EverySnapshotStaysWithinTerms` | apps/extension/src/mint-session.ts:590-637 | in every reachable state every snapshot satisfies its relations and the room is never negative |
| `SessionGuarantees.CapHoldsInEveryRun` | apps/extension/src/mint-session.ts:1227-1244 | lemma S for every run: no chain debits the session more than its cap, in any copy of its ledger |
| `SessionGuarantees.ReleasedSuccessesAreBounded` | apps/extension/src/mint-session.ts:1227-1244 | of everything ever handed to the transport no chain holds more successes than the approved lots |
| `SessionGuarantees.ReleaseFollowsDurableUncertainty` | apps/extension/src/mint-session.ts:1428-1441 | when the bytes go out storage holds memory's very ledger, the payment uncertain with its hash and its history line perhaps released |
| `SessionGuarantees.ReleasedIsNeverCancelled` | apps/extension/src/mint-session.ts:1452-1460 | a released payment is never marked unreleased in memory, storage or a later write |
| `SessionGuarantees.ReleasedGatesTheAccount` | apps/extension/src/background.ts:947-958 | until history finalizes a released payment as run or expired it gates its account, from history alone |
| `SessionGuarantees.CrashKeepsReleases` | apps/extension/src/background.ts:405-430 | the same after a crash at any point and a restart from storage |
| `SessionGuarantees.SignaturesAreAuthorized` | apps/extension/src/mint-session.ts:1358-1408 | every signature, also one refused once made, has authority, time before the deadline and a reservation storage counts, never signed for before |
| `SessionGuarantees.SignaturesAreCounted` | docs/extension/SECURITY.md:37 | no copy of the ledger counts fewer signatures than were made or more than approved; each payment is handed over at most once |
| `SessionGuarantees.UsedNeverDecreases` | docs/extension/SECURITY.md:37 | the stored signature counter never goes back over any step, a failed write or a crash included, and counts every signature made; memory goes back at most to storage, at a restart |
| `SessionGuarantees.StoppedMeansStopped` | apps/extension/src/mint-session.ts:880-887 | once stopped or restarted a session never signs and never releases again |
| `SessionGuarantees.InclusionsAreOrdered` | apps/extension/src/mint-session.ts:1559-1584 | inclusions and births ascend, and a final inclusion follows only final or doubted ones |
| `SessionGuarantees.WindowInAnyRun` | apps/extension/src/mint-session-view.ts:743-752 | for any copy in any reachable state: with nothing outstanding everything is at rest exactly without an open anomaly, and with everything at rest exactly a trailing lost race is still shown |
| `FinalWords.FinalWordStays` | apps/extension/src/mint-session.ts:1424-1460 | in every run a final history entry of a session survives a step exactly unless the step marks this payment: as uncertain (P14), with the answer (P15), or cancelled |
| `FinalWords.SavedWordStays` | apps/extension/src/background.ts:405-430 | a restart keeps a final word exactly if it was saved, or cancels a payment saved as only signed |
| `FinalWords.CancelledStays` | apps/extension/src/mint-session.ts:1452-1460 | a payment cancelled in history stays cancelled until a restart |
| `FinalWords.HistoryMayComeFirst` | apps/extension/src/mint-session.ts:1424-1460 | right before any such step history may finalize the entry, and the step then replaces that word |
| `FinalWords.FinalWordsAreReplaced` | apps/extension/src/mint-session.ts:1424-1460 | for each of these steps there is a run in which it replaces a final word of history |
| `SessionController.MintSessionController.constructor` | apps/extension/src/background.ts:1832-1843 | a controller starts on the record its approval saved, with nothing signed |
| `SessionController.MintSessionController.Await` | apps/extension/src/mint-session.ts:1020-1044 | while the controller awaits, a running record stays as it left it and a stop stays |
| `SessionController.MintSessionController.AwaitWrite` | apps/extension/src/mint-session.ts:1296-1302 | an awaited write settles after those before it, saved or not |
| `SessionController.MintSessionController.Stop` | apps/extension/src/mint-session.ts:880-887 | the first stop reason wins |
| `SessionController.MintSessionController.Authority` | apps/extension/src/mint-session.ts:977-989 | no reason means nothing stopped the session and its deadline is ahead |
| `SessionController.MintSessionController.CancelAttempt` | apps/extension/src/mint-session.ts:1453-1460 | the last attempt and its entry are withdrawn exactly if the transport was not given it and it has no verdict |
| `SessionController.MintSessionController.Reserve` | apps/extension/src/mint-session.ts:1269-1297 | the reservation and the counter enter together and their save begins |
| `SessionController.MintSessionController.SignReservation` | apps/extension/src/mint-session.ts:1352-1420 | it signs with authority for a new hash born at the reserved block, or the attempt is cancelled |
| `SessionController.MintSessionController.Secure` | apps/extension/src/mint-session.ts:1420-1437 | the release may follow only once hash and uncertainty are saved, else the attempt is cancelled |
| `SessionController.MintSessionController.Transmit` | apps/extension/src/mint-session.ts:1438-1449 | exactly one hand-over of that payment, recorded sent or uncertain |
| `SessionController.MintSessionController.Sign` | apps/extension/src/mint-session.ts:1352-1450 | either exactly this payment is handed over and stays sent or uncertain, or none is and the attempt is cancelled |
| `SessionController.MintSessionController.FollowPayment` | apps/extension/src/mint-session.ts:1309-1348 | each answer of the chain gives the recorded status, doubts and end the protocol names |
| `Fates.FollowingMeans` | apps/extension/src/mint-session.ts:1309-1348 | each answer has its own end and record: found in its era, included there; past it, unverified with nothing recorded; nonce spent, account activity; era ended, expired; and exactly another branch ends it as a reorganization and doubts what is not final |
| `Fates.FateTells` | apps/extension/src/mint-session.ts:1309-1348 | on answers that are right a payment is included only where the chain has it, replaced only if another transaction spent its nonce, dead or expired only if no block will ever hold it |
| `SessionController.MintSessionController.Judge` | apps/extension/src/mint-session.ts:1541-1554 | the verdict is recorded and saved; whatever chain the evidence truly is about, the recorded status is what happened to the right there |
| `Verdicts.JudgementTells` | apps/extension/src/mint-session.ts:1541-1554 | after a judgement, in a pass or in the settle task, minted means the payment minted a lot with its right, lost race that another transaction took the right first, failed that the right was there and not used, anomaly that it was used and minted nothing |
| `Verdicts.JudgementEnds` | apps/extension/src/mint-session.ts:1541-1554 | in a pass a judgement ends the session as unverified exactly if it gave no verdict, as failed or anomaly with those verdicts, and goes on with a lot or a lost race |
| `Verdicts.JudgementDecides` | apps/extension/src/mint-session.ts:1541-1554 | with the inclusion block attested, and its parent where it is needed, every recorded status is taken exactly when it is true, outside the named sold-out cases |
| `SessionController.SettledVerdictTells` | apps/extension/src/mint-session.ts:1653-1722 | a verdict that a settle round records is true of the chain it was read from, status by status |
| `SessionController.MintSessionController.CheckOne` | apps/extension/src/mint-session.ts:1573-1581 | one inclusion is final or puts itself and later payments in doubt |
| `SessionController.MintSessionController.RefreshFinality` | apps/extension/src/mint-session.ts:1556-1584 | a completed round leaves every inclusion up to the final block final or in doubt, and makes a running record exactly what the answers say, one inclusion after the other |
| `FinalityChecks.RoundIsExact` | apps/extension/src/mint-session.ts:1556-1584 | after a round, exactly: in doubt is what was, or what a refuted inclusion or an earlier refuted one reaches; final is what was, or what is confirmed and not in doubt |
| `SessionController.MintSessionController.AttestAndJudge` | apps/extension/src/mint-session.ts:1195-1216 | a pass goes on only with every inclusion on the attested chain and the previous payment a lot or a lost race |
| `SessionController.MintSessionController.AdmitPayment` | apps/extension/src/mint-session.ts:1217-1304 | at most one payment is handed over, and only if admission reserved it on this record; a decision against it stands unless a read fails first |
| `Admissions.LimitsAreInOrder` | apps/extension/src/mint-session.ts:1217-1226 | each limit is named exactly when it is reached and none before it is: lots minted, sold out, races lost, signatures, the last ten seconds |
| `Admissions.AdmissionDecides` | apps/extension/src/mint-session.ts:1217-1280 | what stands first against a payment is the decision, from the limits over the attested block, the cap and the budget to the account and the prepared payment; only with nothing against it is the attested lot reserved, at its cost and worst case |
| `SessionController.MintSessionController.Pass` | apps/extension/src/mint-session.ts:1147-1304 | one pass hands over at most one payment and ends or goes on |
| `SessionController.MintSessionController.End` | apps/extension/src/mint-session.ts:1586-1617 | the record ends with the reason the loop gave and nothing more is handed over |
| `SessionController.MintSessionController.SettleRound` | apps/extension/src/mint-session.ts:1653-1722 | a settle round signs nothing and hands over nothing; of the last payment it records at most the position found in its era and the verdict its evidence gives, and others are at most settled or doubted |
| `SessionController.MintSessionController.Run` | apps/extension/src/mint-session.ts:931-955 | passes run until one ends the session, handing over at most one payment each |
| `SessionController.MintSessionController.Snapshot` | apps/extension/src/mint-session.ts:895-902 | the live snapshot passes its readers' rules, counts every signature and hand-over, and shows exactly the counts, spends and payments of the rows below |
| `SnapshotMeaning.SnapshotIsExact` | apps/extension/src/mint-session.ts:590-637 | included, lost races, final lots and open doubts are the sizes of the sets of such payments; spent is what the undoubted minted and anomalous ones debited, reserved what may still be charged, room the cap less both; pending is the first followed payment and last the latest judged one |
| `SnapshotMeaning.SpentIsTotal` | apps/extension/src/mint-session.ts:500-504 | the spends are the total debit of exactly the minted and the anomalous payments |
| `SnapshotMeaning.ReservedIsTotal` | apps/extension/src/mint-session.ts:498-537 | the reserve is the total of exactly the payments that may still be charged |
| `AttestationBudget.EightInAnyMinute` | apps/extension/src/mint-session.ts:55-59 | no minute holds more than eight calls |
| `AttestationBudget.WaitIsLeast` | apps/extension/src/mint-session.ts:1060-1064 | the computed wait is exactly the least one after which that many calls are free |
| `AttestationBudget.AttestationCalls.Free` | apps/extension/src/mint-session.ts:1053-1058 | the free calls are eight less those of the last minute |
| `AttestationBudget.AttestationCalls.Until` | apps/extension/src/mint-session.ts:1060-1064 | the exact least wait for n calls, n at most eight |
| `AttestationBudget.AttestationCalls.Room` | apps/extension/src/mint-session.ts:1066-1081 | waiting ends with one call and the kept ones free, and it waits only when they were not |
| `AttestationBudget.AttestationCalls.AttestTip` | apps/extension/src/mint-session.ts:1083-1089 | a tip attestation always leaves a classification's calls free |
| `AttestationBudget.AttestationCalls.AttestExact` | apps/extension/src/mint-session.ts:1101-1115 | the first classification of the payment signed last never waits for the budget |
| `AttestationBudget.AttestationCalls.MayReserve` | apps/extension/src/mint-session.ts:1245-1248 | a payment is reserved only with two calls free, which then stay free for it |
| `WalletOperations.Wallet.BusyMeansOneHolder` | apps/extension/src/background.ts:685-702 | the mutex is taken exactly while one operation is in progress, and never more than one is |
| `WalletOperations.Wallet.CreateJob` | apps/extension/src/background.ts:970-982 | an operation starts only if it takes the free mutex before its first await |
| `WalletOperations.Wallet.FailCreation` | apps/extension/src/background.ts:1094-1105 | a failed preparation gives back the mutex only if it still holds it |
| `WalletOperations.Wallet.PassGate` | apps/extension/src/background.ts:1030-1037 | an operation that writes history goes on only for an account with nothing unresolved |
| `WalletOperations.Wallet.InsertJob` | apps/extension/src/background.ts:1066-1073 | the prepared review takes over the mutex from its preparation |
| `WalletOperations.Wallet.FinishReview` | apps/extension/src/background.ts:685-694 | a finished review is dropped and gives back its own mutex |
| `WalletOperations.Wallet.CancelJob` | apps/extension/src/background.ts:695-702 | a cancelled review gives back its mutex, a cancelled signing keeps it until its approval is over |
| `WalletOperations.Wallet.Claim` | apps/extension/src/background.ts:1403-1424 | only the first approval of a review claims it; a second one changes nothing, and a connection takes no mutex |
| `WalletOperations.Wallet.FinishConnection` | apps/extension/src/background.ts:1418-1440 | an approved connection is answered once its grant was saved, or taken back and saved again |
| `WalletOperations.Wallet.SignTransaction` | apps/extension/src/background.ts:1503-1524 | the signed entry is in history and in a pending write before anything is broadcast |
| `WalletOperations.Wallet.SignedSaved` | apps/extension/src/background.ts:1524-1528 | uncertainty is recorded only after the signed entry was saved and nothing cancelled it; it replaces even a final word of its own entry, and of no other |
| `WalletOperations.Wallet.HandOver` | apps/extension/src/background.ts:1527-1536 | the bytes leave only once storage and every later write hold the uncertain entry |
| `WalletOperations.Wallet.Submitted` | apps/extension/src/background.ts:1532-1538 | the transport's answer is recorded and saved, even over a final word of its own entry, or everything stays |
| `WalletOperations.Wallet.FailApproval` | apps/extension/src/background.ts:1553-1572 | a failure cancels an entry still marked signed and leaves any later one |
| `WalletOperations.Wallet.Failed` | apps/extension/src/background.ts:1553-1572 | a failing save in the catch gives back the mutex and leaves the job behind, still signing; otherwise the job is answered |
| `WalletOperations.Wallet.SigningHoldsTheMutex` | apps/extension/src/background.ts:1443-1572 | every job being signed holds the mutex exactly as long as no failed save left one behind |
| `WalletOperations.JobIsLeftBehind` | apps/extension/src/background.ts:1553-1572 | a run in which two failed saves leave a job behind and the next operation takes the mutex |
| `WalletOperations.Wallet.SaveRecord` | apps/extension/src/background.ts:1772-1799 | a session's record is saved with the stale ends of its account |
| `WalletOperations.Wallet.StartSession` | apps/extension/src/background.ts:1799-1843 | a session starts only once its record is saved and keeps the mutex; a record whose job was cancelled ends in another save, and any refusal gives the mutex back |
| `WalletOperations.Wallet.EndSaved` | apps/extension/src/background.ts:1805-1814 | once that save settled, either way, the job is answered and the mutex given back |
| `WalletOperations.Wallet.SessionSettled` | apps/extension/src/background.ts:1842-1853 | the mutex is given back when the session settles |
| `WalletOperations.Wallet.AskHistory` | apps/extension/src/background.ts:811-815 | synchronization asks the indexer about an entry only while it is not final |
| `WalletOperations.Wallet.HistoryAnswered` | apps/extension/src/background.ts:815-841 | an open entry becomes finalized with the answer's height, success and verdict exactly if the answer says so, takes an open status as answered, or is unknown after a failed read; one that became final meanwhile stays, and finality is asked next exactly for one that may have expired |
| `WalletOperations.Wallet.FinalityAnswered` | apps/extension/src/background.ts:841-845 | only finality past the era leads to the second question; a failed read leaves an open entry unknown |
| `WalletOperations.Wallet.HistoryAnsweredAgain` | apps/extension/src/background.ts:845-880 | an open entry becomes finalized with the second answer's height, success and verdict exactly if it says so, expired exactly if it says pending, unknown or expired, and unknown after a failed read; one that became final meanwhile stays |
| `WalletOperations.AnswersMean` | apps/extension/src/background.ts:811-880 | what each answer makes of its entry, field by field, in both reads; a final entry and every other one stay |
| `WalletOperations.ReadingAdvances` | apps/extension/src/background.ts:807-880 | no answer takes back a final word or calls a released payment unreleased |
| `WalletOperations.SignedWordReopens` | apps/extension/src/background.ts:1524-1528 | a run in which an entry finalized during its first save is open again after the next step |
| `WalletOperations.SubmittedWordReopens` | apps/extension/src/background.ts:1532-1538 | a run in which an entry finalized during the submission is open again after the answer |
| `WalletOperations.Wallet.OneOperationPerAccount` | apps/extension/src/background.ts:942-958 | in memory, storage and every pending write an account's outstanding entries are one transaction or one session's lots |
| `WalletOperations.Wallet.HandedGates` | apps/extension/src/background.ts:405-430 | a transaction handed over gates its account until history finalizes it, after a restart from any copy |
| `WalletOperations.Wallet.WriteDone` | apps/extension/src/background.ts:453-459 | writes settle in order, and one that failed may have landed |
| `WalletOperations.Wallet.Restart` | apps/extension/src/background.ts:405-430 | after a restart from storage no job, session or mutex survives and every guarantee holds |
| `AccountBooks.AccountBook.ValidateAccounts` | apps/extension/src/accounts.ts:132-194 | the loop accepts exactly the books that satisfy every rule of saved accounts |
| `AccountBooks.NamesAreTrimmed` | apps/extension/src/accounts.ts:49-57 | a name loses the blanks at both ends, and is accepted exactly if 1 to 32 code units are left with no control or format character |
| `AccountBooks.AddAccountKeeps` | apps/extension/src/accounts.ts:86-96 | a new wallet keeps the book valid exactly when its network is allowed, its identity is new and positions have not run out; derivations stay consecutive |
| `AccountBooks.AddDerivedKeeps` | apps/extension/src/accounts.ts:97-120 | a derived account keeps the book valid exactly while positions have not run out, and derivations consecutive |
| `AccountBooks.SelectMovesOnlyTheSelection` | apps/extension/src/accounts.ts:121-129 | selecting leaves the sorted records as they were and the book valid; only the active account changes |
| `AccountBooks.SelectFindsEveryAccount` | apps/extension/src/accounts.ts:121-125 | selection is refused exactly when no account has that owner |
| `AccountBooks.PasskeysAre` | apps/extension/src/accounts.ts:41-48 | exactly the accounts of the active wallet, the active one among them, get the passkey or lose theirs |
| `AccountBooks.PasskeyKeeps` | apps/extension/src/accounts.ts:41-48 | a passkey made for the active wallet, or its removal, keeps the book valid |
| `AccountBooks.RulesIgnoreOrder` | apps/extension/src/accounts.ts:70-74 | sorting the records changes neither the rules they satisfy nor their consecutive derivations |
| `AccountBooks.AccountBook.Activate` | apps/extension/src/accounts.ts:75-85 | the active fields become those of the given record, and the others stay |
| `AccountBooks.AccountBook.Add` | apps/extension/src/accounts.ts:86-96 | a wallet is added in place exactly as specified, or refused with the book unchanged |
| `AccountBooks.AccountBook.Derive` | apps/extension/src/accounts.ts:97-120 | a derived account is added in place exactly as specified, or refused with the book unchanged |
| `AccountBooks.AccountBook.SelectAccount` | apps/extension/src/accounts.ts:121-129 | the swap in place is the specified selection, or refused with the book unchanged |
| `AccountBooks.AccountBook.SetWalletPasskey` | apps/extension/src/accounts.ts:41-48 | the passkey of every account of the active wallet changes, and nothing else |
| `AccountBooks.WalletIsAddedWhen` | apps/extension/src/accounts.ts:86-96 | a new wallet is refused exactly if there are twenty accounts or it is there already |
| `AccountBooks.AddedAccountIs` | apps/extension/src/accounts.ts:86-96 | an added wallet is active, a root at the next position, backed up as said, and the former active account joins the others |
| `AccountBooks.DerivedIsAddedWhen` | apps/extension/src/accounts.ts:97-120 | a derived account is refused exactly if no backed-up wallet is active, there are twenty accounts, its index is not the next one, or its owner is there |
| `AccountBooks.AddedDerivedIs` | apps/extension/src/accounts.ts:97-120 | an added derived account is active, of the same wallet, backed up, at the next position, with the wallet's passkey |
| `AccountBooks.SelectedIs` | apps/extension/src/accounts.ts:121-129 | selecting another owner swaps its first account with the active one |
| `Sorting.SortAscends` | apps/extension/src/accounts.ts:70-74 | sorting by distinct positions gives them in ascending order |
| `Sorting.SortHas` | apps/extension/src/accounts.ts:70-74 | sorting keeps every element |
| `WalletBackups.ParseWalletBackup` | apps/extension/src/account-backup.ts:27-73 | a backup is accepted exactly when it satisfies the rules, and comes back with names trimmed |
| `WalletBackups.ExportedInOrder` | apps/extension/src/account-backup.ts:19-26 | exported accounts stand at their own derivation index under distinct owners |
| `WalletBackups.ExportAlwaysParses` | apps/extension/src/account-backup.ts:19-73 | whatever a valid book exports is accepted again |
| `WalletBackups.ExportedRootAndSelection` | apps/extension/src/account-backup.ts:19-26 | the first exported account is the root, and the selection is the active account |
| `WalletBackups.Restore` | apps/extension/src/background.ts:3102-3111 | the replay on an empty book accepts every account and selects the exported one; the book is valid on every network that allows its vault, with consecutive derivations |
| `WalletBackups.RestoredBookIsValid` | apps/extension/src/background.ts:3102-3111 | a restored book satisfies every rule of saved accounts |
| `WalletBackups.RestoredExportsTheSame` | apps/extension/src/background.ts:3102-3111 | a restored book exports the very accounts and selection of the backup under the new envelope |
| `WalletBackups.BackupRoundTrip` | apps/extension/src/account-backup.ts:19-73 | export, parse and restore give back the same accounts and selection, names trimmed |
| `SessionView.OpenLostRace` | apps/extension/src/mint-session-view.ts:723-741 | the loop over payments matches final lots with verified lots in order |
| `SessionView.WalkMeans` | apps/extension/src/mint-session-view.ts:723-741 | nothing is open exactly when every verified lost race comes before one of the matched lots |
| `SessionView.NoOpenRaceMeansFinal` | apps/extension/src/mint-session-view.ts:723-741 | when the view sees no open lost race every verified lost race of the record is final |
| `SessionView.NothingOutstandingMeansRest` | apps/extension/src/mint-session-view.ts:743-752 | with nothing outstanding, every payment of a sound record is at rest exactly if no right was used without a lot in an open block |
| `SessionView.RestShowsTrailingRaces` | apps/extension/src/mint-session-view.ts:723-752 | with every payment at rest, something outstanding is shown exactly if a lost race has no lot after it |
| `SessionView.FinalityOfOthersIsNotShown` | apps/extension/src/mint-session-view.ts:716-722 | the snapshot and the payments listed do not depend on the finality of anything but lots |
| `SessionView.OpenAnomalyIsNotShown` | apps/extension/src/mint-session-view.ts:743-752 | a right used without a lot in an open block, all else at rest, is shown no more than if that block were final |
| `SessionView.WindowMisjudgesTwo` | apps/extension/src/mint-session-view.ts:743-752 | two records: an open anomaly with nothing outstanding, and a final lost race with something outstanding |

## Left out

- Cryptography, passkeys, the signer and the network: signing yields a new hash born at the reserved block, identities
  and envelopes are opaque, and network answers are arbitrary values.
- `proof/inclusion.ts` enters by its specification: ancestry within 512 blocks of the start and the body of a hash.
- Integer widths and the formats of single fields (hashes, decimals, origins, addresses): only relations are checked.
- `networkEstimate`: an estimate no decision reads.
- Attempts are values in a sequence, so aliasing of attempt objects is not modelled; every update names its index.
- MIN_ATTEMPT_GAP pacing, poll periods, the transient-failure budget, the lease and display state: a pass may run or
  fail at any time.
- The settle task's throttles (`unverifiedAt`, `proofFailed`, retention): the model lets it run more often.
- Ledgers of older wallets without doubt flags, and the migration of older wallet formats.
- Restoring a backup beside existing wallets: the replay theorem is for an empty book.
- Stale ends and pruning are no steps of `SessionMachine`: the first finds nothing in a record without a controller
  (`SessionGuarantees.NothingIsStale`), the second drops only records that are over
  (`SessionGuarantees.PrunedRecordIsOver`).
- SessionController.MintSessionController.RefreshFinality: of an ended record it says only what stays, because history
  may resolve it between two reads.
- SessionController.MintSessionController.Run: takes a given list of reads and may stop when they run out, because an
  endless loop has no contract.
- AttestationBudget.AttestationCalls.MayReserve: the budget is not part of the controller's state; admission takes what
  the budget leaves as a number.
- SessionController.MintSessionController.Await: the reads of a pass are one await each, because the environment may do
  the same between any two of them.
- StoredLedger.CheckRecord: the formats of single fields (hashes, decimals, origins) are not checked.
- AccountBooks.AccountBook.ValidateAccounts: the formats of single fields are not checked; names are.
- WalletBackups.ParseWalletBackup: the formats of single fields and of the envelope are not checked; names are.
- WalletOperations.Wallet.MarkLot: any status, because what a session writes is the subject of SessionMachine.
- Site grants, windows, the side panel, the vault key, notifications and display caches.
