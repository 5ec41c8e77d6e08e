# Verified model of the LLM router's spending

A Dafny 4.11 model of the parts of `jainsons_llm_router` that decide whether
money may be spent and that record that it was, with proofs of what they
promise. `dafny verify dfyconfig.toml` checks all of it.

## What is modelled

- **The usage ledger.** A snapshot, a hash-chained journal and monthly archives.
  `LedgerModel` has the data and the effect of one event; `LedgerHistory` reads
  the full event history naively and defines when a replayed state agrees with
  it; `LedgerDisk` has every operation on the files, each durable write with the
  ways it can end; `LedgerSafety` has the invariant and `LedgerKeys` the part of
  it that needs budget days in order; `LedgerRuns`, `LedgerCaps`, `LedgerTheorems`,
  `LedgerCompaction` and `LedgerLimits` have what follows over whole runs and where
  it stops. `LedgerAnswers` says what each operation answers and costs, and
  `LedgerTamper` what a load refuses, from the history and the lines alone. `FileLedgers` is the ledger in the program's own
  form: a mutable state, loops over it, and methods that append, each held to the
  function in `LedgerDisk` that specifies it. `JournalBytes` is the journal file
  as bytes, and `LegacyUpgrade` the reading of old snapshots.
- **The router.** `RouterModel` has one call as a function of everything it cannot
  foresee, and `Routers` the methods over the ledger that are held to it.
  `RouterChain` says what the chain of candidates promises, `RouterProtocol` that
  every call keeps to reserve, dispatch and close, `RouterLeftovers` which
  reservations it leaves open, `RouterCosts` what each dispatch costs and what a
  refusal means, and `RouterRuns` interleaves the actions of any
  number of calls with compactions, queries and operator recoveries.
- **Prices.** `Pricing` has the integer price card and the bound that a
  reservation puts on the later charge.
- **The application lanes.** `AppSpendFiles` and `AppSpends` are the spend store
  with its day files, lazy expiry and damage; `AppAttempts`, `AppChat` and
  `AppDecide` are the two clients with their retry loops and deadlines, and
  `AppRuns` interleaves the operations of any number of calls. `AppSpendAnswers`,
  `AppChatAnswers` and `AppDecideAnswers` say what they answer and cost from the
  day's file, the request and the replies alone.

Time, ids, provider replies and the ways writes fail are parameters. A budget day
is its ISO string, compared as the program compares it. An operation under the
ledger's lock is one atomic step; between steps anything may happen.

## Where the code differs from its documentation

- The maintainer checklist (`README.md:191`) asks to reconcile unknown
  reservations with a recovery event. A recorded unknown outcome removes the
  reservation from the live table (`src/jainsons_llm_router/ledger.py:503-507`),
  and recovery accepts live reservations only, so it refuses exactly those
  (`RecoversExactly`), however the ledger goes on (`UnknownNeverRecovered`). What
  can be recovered is a reservation whose closing was never recorded.
- `compact` describes itself as atomic (`src/jainsons_llm_router/ledger.py:910`).
  It replaces the snapshot before it looks for the month's archive, so a second
  compaction in a month leaves a ledger that refuses to load
  (`SecondCompactionRefuses`).
- Caps are described per scope. When reservations name distinct scopes the call caps
  hold, and the money caps hold up to what was charged above reservations
  (`CapSafety`, and exactly so in `MoneyCapHeldExactly`). Every reservation that
  names a scope twice can take it over its call cap (`RepeatedScopeOverruns`, and
  exactly so in `CallCapHeldExactly`).
- Missing or invalid ledger data must fail closed, and a reservation that fails is
  reported as an unavailable ledger. If only the confirmation of its line fails,
  the reservation is on the disk and live although nothing was dispatched, and the
  call reports no unknown outcome (`FailedReservationStaysExactly`). That, and a
  closing line that does not reach the disk, are the only ways in which a call
  leaves a reservation open (`LeftOpenExactly`).
- A daily cap is enforced when money is reserved. The decision lane reserves the
  price of the input only (`src/jainsons_llm_router/app_decide.py:249`) and settles
  whatever cost a provider reports (`src/jainsons_llm_router/app_decide.py:174-181`).
  A reply that costs more than was reserved on a day with just enough left takes the
  day past its cap (`DecidePassesCap`). The cap holds across an attempt if and only
  if its settlement is no more than its reservation (`CapHeldExactly`), and is passed
  by at most what settlements exceed theirs (`DecideCappedPlusExcess`).
- An unreadable spend file is meant to close its day. If it is moved aside and
  its replacement cannot be written, the day starts afresh
  (`DamagedDayReopensExactly`).

## Assumptions of the main results

- Reservation ids are new.
- For what is said of keys over whole runs (`RunKeyed`, `AtMostOnce`,
  `ChargedAtMostOnce`, `CompactionsErased`): no reservation is made for a budget day
  before one that a compaction has pruned at. It is needed there, since otherwise a
  consumed key of an earlier day is granted again (`KeyReusedExactly`). Caps, usage,
  the live reservations, the chain, the block, when a reservation is granted and what
  the next load reads do not need it.
- The digest is ideal: it determines the event, and is never the genesis value.
- `ChargedAtMostOnce` speaks of money at the provider, so it also assumes that an
  operator recovers no reservation a call still holds and releases none whose
  dispatch may have cost money. `AtMostOnce` needs neither.
- `ChatConserves`, `DecideConserves` and `InterleavedConserves` assume that writes
  succeed and that requests end by the call's deadline on the spend store's clock.
  `ChargedExactly` says what happens to a reservation that is closed too late. The
  bounds by the cap assume neither: they hold with reservations that expire, writes
  that fail and files that are damaged, for one call (`ChatCappedPlusExcess`,
  `DecideCappedPlusExcess`), for calls interleaved (`InterleavedCappedPlusExcess`,
  `InterleavedWithinMicro`) and for any operations (`SpendCappedPlusExcess`,
  `SpendWithinTokens`). One micro-USD per reply is the excess when token counts stay
  within those that were reserved for.
- The theorems over runs of the ledger start from an initialised one. An upgraded
  one agrees with its history, as the invariant asks, under the conditions of
  `UpgradedAgrees`.

## Model

| member | source | states |
|---|---|---|
| `Days.DatesInOrder` | src/jainsons_llm_router/ledger.py:857-873 | comparing budget days as strings puts dates in the order of their year, month and day |
| `FileLedgers.LedgerState.AddTotals` | src/jainsons_llm_router/ledger.py:478-484 | the in-place loop adds the event's actual calls and money to the event's own day, once for every time a scope is listed, and to nothing else (`AddTotalsAt` says so per day and scope) |
| `FileLedgers.LedgerState.RemoveIdempotency` | src/jainsons_llm_router/ledger.py:544-553 | afterwards the table finds exactly what it found before, except the record's own day and key, and an emptied day is dropped |
| `FileLedgers.LedgerState.ApplyEvent` | src/jainsons_llm_router/ledger.py:486-541 | accepts an event exactly when `Step` does, and then leaves the four coupled parts as `Step` says; refused for a reservation that is already live or whose key is taken that day, and for a closing without a live reservation |
| `FileLedgers.LedgerState.UsageForScope` | src/jainsons_llm_router/ledger.py:615-623 | the loop over the live reservations returns settled totals plus the claims of all live reservations of that day and scope, in whatever order they are visited |
| `FileLedgers.LedgerState.PruneStaleIdempotency` | src/jainsons_llm_router/ledger.py:857-873 | the nested loops delete exactly the terminal markers of earlier days and the days this empties; live markers of any day and all markers of the day or later stay |
| `FileLedgers.FileLedger.LoadState` | src/jainsons_llm_router/ledger.py:443-468 | the loop over the journal yields the state of the replay, or refuses exactly when some line breaks the sequence, the chain, the digest, the domain or timezone, or is not accepted by the state; changes no file |
| `FileLedgers.FileLedger.AppendEvent` | src/jainsons_llm_router/ledger.py:597-612 | for each way a write can end: which line reaches the disk, that memory is updated only after a confirmed write, and what the caller is told |
| `FileLedgers.FileLedger.Reserve` | src/jainsons_llm_router/ledger.py:625-684 | files and answer are those of `ReserveOp`: block, same-day key, then the caps scope by scope in order decide the refusal; `ReserveAnswersExactly` says which answer is given and `GrantedHolds` what a granted one holds, from the history |
| `FileLedgers.FileLedger.Settle` | src/jainsons_llm_router/ledger.py:692-722 | files and answer are those of `SettleOp`: negative values refused, a live reservation consumed, and a second event when the charge exceeds the reservation; `SettlementCostsWhatIsSettled` says what that costs and when it blocks the domain |
| `FileLedgers.FileLedger.Release` | src/jainsons_llm_router/ledger.py:724-730 | files and answer are those of closing a live reservation as released; refused, with the files unchanged, for any other id; free of charge (`ReleasesAndRecoveriesCost`) |
| `FileLedgers.FileLedger.SettleUnknown` | src/jainsons_llm_router/ledger.py:732-750 | files and answer are those of closing a live reservation as unknown, refused for an id that is not live; it charges the whole reservation (`UnknownCostsItsReservation`) |
| `FileLedgers.FileLedger.Recover` | src/jainsons_llm_router/ledger.py:790-820 | refused without evidence, with both or neither of release and charge, or with a negative charge; otherwise closes the live reservation as named (`RecoversExactly`) at the charge named (`ReleasesAndRecoveriesCost`) |
| `FileLedgers.FileLedger.RemainingBudget` | src/jainsons_llm_router/ledger.py:752-768 | cap minus used, never below zero, for a capped scope on the given day; changes no file (`RemainingExactly` says it of the history) |
| `FileLedgers.FileLedger.Compact` | src/jainsons_llm_router/ledger.py:909-948 | the files after every possible stop of prune, checkpoint, snapshot, archive, rotate and reopen, in that order; `CompactOutcome`, `CompactsExactly` and `CompactionUnobservable` say what that means |
| `FileLedgers.FileLedger.RotateJournal` | src/jainsons_llm_router/ledger.py:922-947 | the files after every possible stop of archiving and rotating, with the snapshot already replaced |
| `FileLedgers.FileLedger.Initialize` | src/jainsons_llm_router/ledger.py:307-353 | refused if the lock, snapshot or journal is already present; otherwise a new ledger with an empty snapshot at sequence 0, the genesis digest and an empty journal |
| `JournalBytes.ReadJournalEvents` | src/jainsons_llm_router/ledger.py:423-441 | the loop returns the decoded lines of the file, or refuses a file without a final newline, with a blank line, or with a line that does not decode |
| `JournalBytes.WholeLinesRead` | src/jainsons_llm_router/ledger.py:423-441 | round trip: the bytes of any event list, one encoded line each, are read back as exactly that list |
| `JournalBytes.PartialLineRead` | src/jainsons_llm_router/ledger.py:597-606 | after any number of bytes of a new line: nothing written reads as before, all of it reads as one event more, and every proper prefix makes the file refused |
| `JournalBytes.JournalRead` | src/jainsons_llm_router/ledger.py:423-441 | bytes that stand for a journal are refused if and only if its last line is partial, and otherwise read back as its events |
| `JournalBytes.AppendedBytes` | src/jainsons_llm_router/ledger.py:597-606 | appending any number of bytes of a line leaves bytes that stand for one of the four outcomes of a write |
| `JournalBytes.ReadExactly` | src/jainsons_llm_router/ledger.py:423-441 | of any bytes at all, those are read that are proper lines one after the other, not blank, the last ended by a newline, each of which decodes; their events in order are what is read, and anything else is refused |
| `LegacyUpgrade.NewIdempotency` | src/jainsons_llm_router/ledger.py:210-250 | the loop over a stored table files buckets under their day and old outcomes under the live reservation's day, the recorded day or the snapshot's day, in that order of preference |
| `LegacyUpgrade.UpgradeIsIdentity` | src/jainsons_llm_router/ledger.py:227-233 | a day-indexed table is read back unchanged, so upgrading the written-back form again changes nothing |
| `LegacyUpgrade.OutcomesRead` | src/jainsons_llm_router/ledger.py:225-243 | whatever forms a stored table mixes: a day finds a key's outcome if and only if some entry has the last word on that day and key and says so |
| `LegacyUpgrade.EveryEntryHeard` | src/jainsons_llm_router/ledger.py:225-243 | in a table in either form, or in any where no day has both a bucket and old outcomes, every entry is heard: every old key lands on exactly one day, every bucket on its own, and nothing is invented |
| `LegacyUpgrade.LastEntryDecides` | src/jainsons_llm_router/ledger.py:225-243 | whatever forms a stored table mixes, a day says about a key what the last entry that decides it says: a bucket for its day, an old outcome for the day it is given |
| `LegacyUpgrade.NoEntryDecides` | src/jainsons_llm_router/ledger.py:225-243 | a day says nothing about a key that no entry decides |
| `LegacyUpgrade.UpgradeEstablishesBijection` | src/jainsons_llm_router/ledger.py:223-243 | after the upgrade each live reservation owns the live marker of its day and key, and each live marker names such a reservation, if and only if the stored table's last words say the same, whatever forms it mixes |
| `LegacyUpgrade.ConsistentEntries` | src/jainsons_llm_router/ledger.py:235-243 | that is so for a table in either form whose live outcomes and the live reservations name each other, whatever day an old outcome was recorded with: it goes to its reservation's own day |
| `LegacyUpgrade.UpgradeTruthfulExactly` | src/jainsons_llm_router/ledger.py:215-243 | the markers of an upgraded table are true of the full history if and only if every last word is, on the day the upgrade gives it |
| `LegacyUpgrade.UpgradedAgrees` | src/jainsons_llm_router/ledger.py:215-243 | an upgraded snapshot agrees with its history in all the respects in which a new ledger's does if and only if every last word is true and each live reservation has one; and its markers are complete from a day on if and only if each key held since then has one |
| `LedgerModel.AddTotalsAt` | src/jainsons_llm_router/ledger.py:478-484 | the total of any day and scope grows by the event's amounts times the number of listings of the scope, on the event's day only |
| `LedgerModel.Prune` | src/jainsons_llm_router/ledger.py:857-873 | a lookup after pruning finds what it found before if the day is not earlier or the marker is live, and nothing otherwise |
| `LedgerModel.Drop` | src/jainsons_llm_router/ledger.py:544-553 | a lookup after dropping a day's key finds what it found before for every other day and key |
| `LedgerHistory.StepHasEffect` | src/jainsons_llm_router/ledger.py:486-541 | what an accepted event does to each part of the state: live table, totals, sticky block, and every lookup in the idempotency table |
| `LedgerHistory.UnclosedWithout` | src/jainsons_llm_router/ledger.py:615-623 | closing a reservation removes exactly its own claim from the naive sum of open claims over the history |
| `LedgerHistory.AgreementKept` | src/jainsons_llm_router/ledger.py:486-541 | the central step: every event an operation may append is accepted, and the replayed state agrees with the longer history in all seven respects, for budget days in any order |
| `LedgerSafety.LineSound` | src/jainsons_llm_router/ledger.py:597-612 | a complete line about an admissible event is accepted by the next load and keeps the whole invariant of the files |
| `LedgerSafety.AppendSound` | src/jainsons_llm_router/ledger.py:597-612 | storage refines memory: however the write ends the files keep the invariant, and a confirmed write leaves in memory exactly what the next load reads |
| `LedgerSafety.PruneAgrees` | src/jainsons_llm_router/ledger.py:857-873 | pruning, at whatever day, forgets nothing that the agreement with the full history needs |
| `LedgerSafety.CoveredJournalRefused` | src/jainsons_llm_router/ledger.py:917-921 | once the snapshot is replaced, the journal it covers is refused until it is rotated away |
| `LedgerSafety.CompactOutcome` | src/jainsons_llm_router/ledger.py:909-948 | for every stopping point: the files stay sound, the next load is refused or reads the state as it was or with stale markers pruned; without a fault it succeeds, and archives the month, if and only if the month has no archive, and an existing archive leaves a ledger that refuses to load |
| `LedgerSafety.SecondCompactionRefuses` | src/jainsons_llm_router/ledger.py:917-921 | compacting twice in one month without any fault: the first succeeds and loads, the second is refused and leaves a ledger that refuses to load |
| `LedgerRuns.ExecSound` | src/jainsons_llm_router/ledger.py:625-948 | every operation keeps the invariant of the files, however its writes fail |
| `LedgerRuns.RunSound` | src/jainsons_llm_router/ledger.py:443-948 | the invariant holds after every run of operations from an initialised ledger, by any number of processes |
| `LedgerRuns.ExecGrows` | src/jainsons_llm_router/ledger.py:597-948 | an operation only extends the history, by its own event first and then at most events that concern no reservation |
| `LedgerCaps.IndexAgrees` | src/jainsons_llm_router/ledger.py:615-623 | the usage the ledger computes from its index equals the naive sum over the whole history of charges plus reservations never closed |
| `LedgerCaps.CloseCaps` | src/jainsons_llm_router/ledger.py:692-750 | exchanging a claim for a charge raises usage by at most what the charge exceeds the claim |
| `LedgerCaps.ScopesAllow` | src/jainsons_llm_router/ledger.py:643-649 | the scope loop lets a reservation pass if and only if every scope is capped and has room for one call and the money |
| `LedgerCaps.CapSafety` | src/jainsons_llm_router/ledger.py:614-648 | in every reachable state, for every day and capped scope: calls never exceed the cap, and money exceeds it by no more than what was charged above reservations, when each reservation names distinct scopes |
| `LedgerKeys.MarkersCompleteKept` | src/jainsons_llm_router/ledger.py:486-541 | an event keeps the marker of every reservation that holds a key of a day not before the horizon |
| `LedgerKeys.KeysHeldOnceKept` | src/jainsons_llm_router/ledger.py:629-642 | an event that reserves for no day before the horizon leaves every key of every day held at most once, pruned markers included |
| `LedgerKeys.PruneComplete` | src/jainsons_llm_router/ledger.py:857-873 | pruning leaves the markers complete from the later of the horizon and the pruning day on |
| `LedgerKeys.ExecKeyed` | src/jainsons_llm_router/ledger.py:625-948 | every operation that reserves for no day before the horizon keeps that, however its writes fail, and only a compaction moves the horizon |
| `LedgerKeys.RunKeyed` | src/jainsons_llm_router/ledger.py:486-948 | over every run whose budget days do not go back behind a compaction no key of a day is ever held twice, and every key held since the last pruning has its marker |
| `LedgerTheorems.AtMostOnce` | src/jainsons_llm_router/ledger.py:486-541 | over every run whose budget days do not go back behind a compaction, of two reservations for one budget day and key at most one is live, unknown, recovered, settled or charged any money |
| `LedgerTheorems.FreedCostsNothing` | src/jainsons_llm_router/ledger.py:507-515 | a reservation whose key was freed was never charged money |
| `LedgerTheorems.LiveBijection` | src/jainsons_llm_router/ledger.py:490-541 | in every reachable state that loads, each live reservation owns the marker of its day and key, and each live marker names a live reservation of that day and key |
| `LedgerTheorems.OneTerminalEach` | src/jainsons_llm_router/ledger.py:498-541 | over every run no two terminal events concern the same reservation |
| `LedgerTheorems.OverageIsFinal` | src/jainsons_llm_router/ledger.py:524-525 | no reservation event ever follows an overage event, through any later operations and compactions |
| `LedgerTheorems.SettleBlocksExactly` | src/jainsons_llm_router/ledger.py:718-722 | after a settlement the domain is blocked if and only if it was before, or the charge exceeded the reservation and both lines reached the disk; a failure between the two appends loses the block |
| `LedgerTheorems.RecoveryNeverBlocks` | src/jainsons_llm_router/ledger.py:813-820 | an operator recovery never blocks the domain, whatever it charges |
| `LedgerTheorems.ClosesWhenLive` | src/jainsons_llm_router/ledger.py:686-690 | a reservation can be closed if and only if the ledger loads and it is live, blocked domain or not |
| `LedgerTheorems.RecoversExactly` | src/jainsons_llm_router/ledger.py:790-820 | recovery succeeds if and only if it is well formed, the ledger loads and the full history says the reservation is still open; an outcome recorded as unknown is therefore beyond recovery |
| `LedgerTheorems.UnknownNeverRecovered` | src/jainsons_llm_router/ledger.py:503-507 | recording an outcome as unknown succeeds on a live reservation, and from then on every recovery of it is refused, whatever it names and however the ledger goes on |
| `LedgerTheorems.GrantedExactly` | src/jainsons_llm_router/ledger.py:625-684 | a reservation is granted if and only if the request fits the ledger, the domain is not blocked, the key is unused that day, and the remaining budget reported for each of its scopes covers it |
| `LedgerTheorems.SameDigestSameHistory` | src/jainsons_llm_router/ledger.py:452-467 | two chained histories with the same last digest are the same events |
| `LedgerTheorems.OneChain` | src/jainsons_llm_router/ledger.py:915-947 | in every reachable state that loads, the archives followed by the active journal are one chain from the genesis digest, are the whole history, and end where the state stands |
| `LedgerTheorems.RefusedForever` | src/jainsons_llm_router/ledger.py:443-468 | a ledger that refuses to load is changed by no operation and grants nothing |
| `LedgerTheorems.OnlyTornLinesRefuse` | src/jainsons_llm_router/ledger.py:597-612 | apart from compaction, the next load is refused if and only if the last line is partial: no complete line poisons the journal |
| `LedgerTheorems.NothingForgotten` | src/jainsons_llm_router/ledger.py:443-468 | wherever an operation stops, the next load is refused or reads usage, live reservations and block that equal those of the full history, which never loses an event |
| `LedgerTheorems.CostIsFinal` | src/jainsons_llm_router/ledger.py:498-541 | what a closed reservation has cost and how it stands never change again, however the history goes on |
| `LedgerAnswers.ReserveAnswersExactly` | src/jainsons_llm_router/ledger.py:625-650 | which answer a request gets, said of the history: a blocked domain denies it; a marker of its day and key conflicts with the standing of the reservation it names; then the first scope, in order, without room for one call and the money denies it if it is capped and fails it if not; else it is granted |
| `LedgerAnswers.ForeignRequestsFail` | src/jainsons_llm_router/ledger.py:627-636 | a request for another domain, price card or account, or on a ledger that refuses to load, fails and changes no file |
| `LedgerAnswers.GrantedHolds` | src/jainsons_llm_router/ledger.py:651-684 | a granted reservation is live under what was asked for, owns the marker of its day and key, and takes one call and its money from every scope it names, on its day only; nothing else changes |
| `LedgerAnswers.RemainingExactly` | src/jainsons_llm_router/ledger.py:752-768 | what is reported left of a scope and day and what the history used of it make up the cap, and none is left once more was used |
| `LedgerAnswers.UnknownCostsItsReservation` | src/jainsons_llm_router/ledger.py:732-750 | an unknown outcome is charged the reservation's calls and all its money, on its own day and once for each time it names a scope, in exchange for what it held, so that with distinct scopes no usage changes |
| `LedgerAnswers.SettlementCostsWhatIsSettled` | src/jainsons_llm_router/ledger.py:692-722 | a settlement is charged one call and what is settled, to the same scopes and day, carries its tokens, frees the key if and only if it is a free provider failure, and blocks the domain if and only if it is above the reservation |
| `LedgerAnswers.SettlesExactly` | src/jainsons_llm_router/ledger.py:702-706 | a settlement succeeds if and only if nothing in it is negative and it is of an open reservation of a ledger that loads; otherwise no file changes |
| `LedgerAnswers.ReleasesAndRecoveriesCost` | src/jainsons_llm_router/ledger.py:724-820 | a release and a releasing recovery cost nothing and free the key; a recovery that names a charge costs one call and that charge and keeps it |
| `LedgerAnswers.OtherFailures` | src/jainsons_llm_router/ledger.py:597-612 | only a reservation is ever denied or conflicts; whatever else fails is an unavailable ledger |
| `LedgerAnswers.UnconfirmedReservation` | src/jainsons_llm_router/ledger.py:597-612 | a reservation that would be granted and whose line is not confirmed is reported as an unavailable ledger |
| `LedgerAnswers.CompactsExactly` | src/jainsons_llm_router/ledger.py:909-948 | without a failing write a compaction succeeds if and only if no archive is of its month; then the whole journal and a checkpoint are that archive, a journal of one line begins, and only terminal markers of earlier days are gone |
| `LedgerTamper.LoadsExactly` | src/jainsons_llm_router/ledger.py:443-468 | a ledger loads if and only if its snapshot fits, its journal is whole, every line continues the one before, carries its own digest and belongs to the ledger, and every event is accepted in turn; and what loads is what those events make |
| `LedgerTamper.ChangedLineRefused` | src/jainsons_llm_router/ledger.py:452-467 | a journal in which any line but the last was changed in any way, or the last without forging its digest, refuses to load |
| `LedgerTamper.MissingOrAddedLineRefused` | src/jainsons_llm_router/ledger.py:452-467 | so does one from which any line but the last is missing, or to which a line was added before another |
| `LedgerTamper.ForeignLineRefused` | src/jainsons_llm_router/ledger.py:459-466 | so does one with a line of another domain or timezone |
| `LedgerTamper.AcceptedExactly` | src/jainsons_llm_router/ledger.py:486-541 | a state accepts a reservation under an id that is not live and a key unused that day, a well-formed closing of a live reservation, and anything about no reservation |
| `LedgerLimits.SettleConservesExactly` | src/jainsons_llm_router/ledger.py:478-484 | settling at the reserved price leaves every scope's usage as it was if and only if the reservation names its scopes once each |
| `LedgerLimits.KeyForgottenExactly` | src/jainsons_llm_router/ledger.py:857-873 | after a compaction a consumed key that the ledger remembered still conflicts on its day if and only if that day is not before the pruning day |
| `LedgerLimits.KeyReusedExactly` | src/jainsons_llm_router/ledger.py:857-873 | after a compaction a request under such a key, if the remaining budget covers it, is granted and live beside the reservation that consumed the key if and only if the compaction pruned at a later day |
| `LedgerLimits.CallCapHeldExactly` | src/jainsons_llm_router/ledger.py:145-151 | with one call allowed per scope, reserving and settling at the reserved price keeps every scope within its call cap if and only if the reservation names its scopes once each |
| `LedgerLimits.RepeatedScopeOverruns` | src/jainsons_llm_router/ledger.py:145-151 | for every reservation that names some scope twice, whichever it is: it is granted, and settling it takes a scope over its call cap |
| `LedgerLimits.MoneyCapHeldExactly` | src/jainsons_llm_router/ledger.py:718-722 | with distinct scopes whose money caps just cover a reservation, its settlement keeps every scope within them if and only if the charge is no more than was reserved |
| `LedgerCompaction.StepSame` | src/jainsons_llm_router/ledger.py:486-541 | two states that differ only in forgotten markers of earlier days accept the same events and go on differing only so |
| `LedgerCompaction.ExecSame` | src/jainsons_llm_router/ledger.py:625-820 | on ledgers that differ only so, every operation gives the same answer and leaves ledgers that differ only so |
| `LedgerCompaction.CompactionUnobservable` | src/jainsons_llm_router/ledger.py:909-948 | wherever a compaction stops, the ledger either refuses to load or answers every later sequence of operations on days not before the pruning day exactly as if it had not been compacted |
| `LedgerCompaction.CompactionsErased` | src/jainsons_llm_router/ledger.py:909-948 | in every run, with any number of interleaved compactions stopping anywhere, that ends on a ledger that loads, every other operation answers as in the same run without compactions, and both end on the same usage, live reservations and block |
| `Pricing.ChargeTight` | src/jainsons_llm_router/adapters.py:86-90 | apart from fixed and margin parts a charge is at least the exact price and less than two micro-USD above it |
| `Pricing.ChargeMonotone` | src/jainsons_llm_router/adapters.py:86-90 | a charge never falls when a token count rises |
| `Pricing.EstimateCoversText` | src/jainsons_llm_router/adapters.py:131-135 | the input estimate is the least number of tokens, at least one, that covers the text at three characters a token |
| `Pricing.ReplyWithinReservation` | src/jainsons_llm_router/adapters.py:145-155 | a reply within the estimated input and the allowed output is charged at most its reservation, with the margin to spare |
| `Pricing.ChargeExactly` | src/jainsons_llm_router/adapters.py:86-90 | a charge is the fixed part, the margin if included, and for each direction the least whole micro-USD that covers its tokens at its rate |
| `Pricing.EstimateExactly` | src/jainsons_llm_router/adapters.py:131-155 | what is estimated is the charge, margin included, for the least number of tokens that covers the text and all the output allowed |
| `Routers.Router.RunFree` | src/jainsons_llm_router/router.py:315-376 | a free candidate answers if and only if it is eligible and some attempt within its number succeeds; selected exactly it has one attempt and its failure is an error; the attempts made are those up to the first success |
| `Routers.Router.CloseReservation` | src/jainsons_llm_router/router.py:275-313 | records an ending on the ledger as the closure it calls for: release, settlement as provider failure, unknown, or settlement as success |
| `Routers.Router.ReserveAndDispatch` | src/jainsons_llm_router/router.py:420-475 | files, result and actions of reserving, dispatching and closing one candidate; `PaidOutcome` says when it answers, is denied, or lets the chain go on |
| `Routers.Router.RunPaid` | src/jainsons_llm_router/router.py:378-475 | files, result and actions of one paid candidate, exact or not: passed over without approval or capability, refused without a key or a bound on its charge, otherwise reserved and dispatched |
| `Routers.Router.TryFree` | src/jainsons_llm_router/router.py:508-511 | the answer and the attempts of the free chain; `FirstFreeWins` says whose answer that is |
| `Routers.Router.TryPaid` | src/jainsons_llm_router/router.py:514-535 | files, result and actions of the paid chain; `PaidAnswerExactly`, `DeniedExactly`, `OtherErrorsAreLast` and `NotApprovedExactly` say what they are without the loop |
| `Routers.Router.Complete` | src/jainsons_llm_router/router.py:477-535 | files, result and actions of a whole call; `CompletedKeeps` and the lemmas about its chains say what they promise |
| `RouterChain.ExactIsFirst` | src/jainsons_llm_router/models.py:298-300 | an exact selection finds the first candidate of that name among the exact, the free and the paid ones, and nothing if and only if there is none |
| `RouterChain.FirstFreeWins` | src/jainsons_llm_router/router.py:508-511 | the free answer is that of the first candidate in order that answers |
| `RouterChain.NoFreeAnswerExactly` | src/jainsons_llm_router/router.py:513-517 | there is no free answer if and only if no candidate is proven free and healthy and succeeds within its attempts |
| `RouterChain.PaidAfterFree` | src/jainsons_llm_router/router.py:509-520 | when none answers, the call has no route if there is no paid candidate to go on to, and otherwise ends as the chain of all its paid candidates, or of the first one when it may not be substituted |
| `RouterChain.ExactFreeOutcome` | src/jainsons_llm_router/router.py:315-376 | an exact free selection is unavailable unless proven free and healthy, and otherwise gets one attempt, which answers or fails |
| `RouterChain.ExactPaidOutcome` | src/jainsons_llm_router/router.py:378-420 | an exact paid selection tells a missing approval from a missing capability, fails when the request cleanly failed, and otherwise ends as its one candidate does |
| `RouterChain.GuardsInOrder` | src/jainsons_llm_router/router.py:203-224 | approval and capability pass a candidate over, a missing key makes the request invalid, an estimate that is not positive cannot be bounded, in that order and without touching the ledger; what is reserved is the estimate |
| `RouterChain.FreeIgnoresLedger` | src/jainsons_llm_router/router.py:513-517 | when a free candidate of those that a call tries answers, the result is the first such candidate's, the same on any two ledgers, which stay as they are |
| `RouterChain.PaidOutcome` | src/jainsons_llm_router/router.py:378-475 | a paid candidate answers if and only if it is approved, capable and bounded, its reservation is granted, the provider succeeds and that is recorded; it is denied if and only if its budget is refused; the chain goes on if and only if it was passed over, denied, or failed cleanly and recorded |
| `RouterChain.PaidAnswerExactly` | src/jainsons_llm_router/router.py:514-529 | the paid chain answers if and only if some candidate serves after every earlier one was passed by |
| `RouterChain.PaidAnswer` | src/jainsons_llm_router/router.py:514-529 | that answer is the serving candidate's under its own reservation, with the files it left, and nothing is done after it |
| `RouterChain.DeniedExactly` | src/jainsons_llm_router/router.py:514-531 | a denied budget is reported if and only if every candidate was passed by and the budget of some candidate was refused |
| `RouterChain.OtherErrorsAreLast` | src/jainsons_llm_router/router.py:517-529 | the first candidate that is neither passed by nor serves ends the call with its error, and nothing is done after it |
| `RouterChain.NotApprovedExactly` | src/jainsons_llm_router/router.py:530-535 | when all were passed by and none was denied, a missing approval is reported if and only if no candidate was approved, and a failure otherwise |
| `RouterProtocol.CompletedKeeps` | src/jainsons_llm_router/router.py:477-535 | every call keeps the protocol from the files it starts with to the files it leaves, touches only the candidates allowed to it, in order and under their conditions, and ends with a result its standing permits |
| `RouterProtocol.DispatchesWhileLive` | src/jainsons_llm_router/router.py:421-424 | whenever a call is about to dispatch, its own reservation is live in the files it stands on |
| `RouterProtocol.ProtocolShape` | src/jainsons_llm_router/router.py:421-475 | in every trace a dispatch follows its own reservation, a closure follows its own dispatch and is the one its ending calls for, and only the last closure may be a success, unknown or unrecorded |
| `RouterProtocol.EveryReservationClosed` | src/jainsons_llm_router/router.py:421-475 | every reservation a concluded call was granted is closed by it right after its dispatch; a closure that could not be recorded is the last action and the call ends in an unknown outcome |
| `RouterProtocol.OneCandidateOnly` | src/jainsons_llm_router/router.py:486-506 | with an exact selection, or without substitutions, all actions of a call concern one candidate |
| `RouterLeftovers.OpenExactly` | src/jainsons_llm_router/router.py:421-475 | at any point of a call, of the reservations it made exactly those are open in the history that its last action leaves open |
| `RouterLeftovers.LeftOpenExactly` | src/jainsons_llm_router/router.py:203-313 | when a call has ended, a reservation it made is still open if and only if its closing line did not reach the disk, reported as an unknown outcome, or the call ended on a reservation reported as failed whose line did, reported as an unavailable ledger |
| `RouterLeftovers.FailedReservationStaysExactly` | src/jainsons_llm_router/ledger.py:597-612 | a reservation reported as failed is on the disk, and live, if and only if it would have been granted and only the confirmation of its line failed |
| `RouterLeftovers.ClosureLineExactly` | src/jainsons_llm_router/ledger.py:597-612 | the closure of a live reservation leaves no line if and only if its write fails before the line is complete or its charge is negative |
| `RouterCosts.OpensInCandidatesName` | src/jainsons_llm_router/router.py:222-247 | a reservation is made for the candidate's own scopes, the request's key, the day and the id it was given, and the amount asked for |
| `RouterCosts.RecordedClosureCosts` | src/jainsons_llm_router/router.py:275-313 | a recorded closure charges the reported charge, the whole reservation when it is not known, or nothing for a request that never left or was rejected free, leaves the standing that goes with it, and blocks the domain if and only if the provider charged more than was reserved |
| `RouterCosts.ClosureCosts` | src/jainsons_llm_router/router.py:421-475 | so does every closure that a call records, in the course of the call, with the tokens that the adapter reported |
| `RouterCosts.CallCosts` | src/jainsons_llm_router/router.py:477-535 | in the history that a whole call leaves, every dispatch whose closure was recorded has cost what its ending says for the amount its adapter estimated, and stands accordingly |
| `RouterCosts.AnswerCosts` | src/jainsons_llm_router/router.py:298-313 | the reservation of a paid answer has cost what the provider reported, or the estimate if it reported nothing |
| `RouterCosts.RefusalMeans` | src/jainsons_llm_router/router.py:248-252 | when a candidate that is ready is refused, said of the history: its budget is denied if and only if the domain is blocked, its key was consumed and resolved that day, or its first full scope is capped; the outcome is unknown if and only if its key is unresolved; the ledger is unavailable if and only if its first full scope has no cap |
| `RouterRuns.TurnKeeps` | src/jainsons_llm_router/router.py:378-475 | every turn of the interleaving keeps: the files sound, each held reservation open and held by one call, each reservation dispatched at most once, and the key of every possibly charged dispatch held |
| `RouterRuns.DispatchWhileOpen` | src/jainsons_llm_router/router.py:421-424 | over every interleaving of calls, compactions and recoveries, a call that holds a reservation has it open in the full history and live in whatever loads, and dispatches it at most once |
| `RouterRuns.NeverTwoForOneKey` | src/jainsons_llm_router/router.py:203-252 | over every interleaving, budget days in any order, two calls never hold reservations for the same budget day and key at the same time |
| `RouterRuns.ChargedAtMostOnce` | src/jainsons_llm_router/router.py:378-475 | over every interleaving whose budget days do not go back behind a compaction, of two dispatches reserved for the same day and key at most one can have cost money at the provider |
| `RouterRuns.KeyFreedExactly` | src/jainsons_llm_router/router.py:275-313 | a recorded closure frees its key, so that the next candidate may reserve under it, if and only if the dispatch cannot have cost money: the state that loads next has no marker for that day and key, and the history gives the reservation no standing |
| `RouterRuns.EstimatedReplyNeverBlocks` | src/jainsons_llm_router/router.py:298-313 | settling a reply whose tokens stay within the estimate of its reservation never blocks the domain |
| `RouterRuns.CallIsTurns` | src/jainsons_llm_router/router.py:477-535 | every trace that keeps the protocol, hence every call, is a sequence of turns of the interleaving with the same files and standing |
| `AppSpendFiles.IdKeepsItsDay` | src/jainsons_llm_router/app_spend.py:183-192 | an id made on a calendar day names that day's file whenever it is closed |
| `AppSpendFiles.ChargedOnce` | src/jainsons_llm_router/app_spend.py:194-210 | a closed reservation does not come back, and closing it again charges nothing |
| `AppSpendFiles.DamagedDayReopensExactly` | src/jainsons_llm_router/app_spend.py:121-129 | after damage the next reservation that would fit an empty day is granted if and only if the damaged file was moved aside and its replacement was not written |
| `AppSpendFiles.SpendCappedPlusExcess` | src/jainsons_llm_router/app_spend.py:170-210 | over any run of operations, by any number of processes, with expiry, failing writes and damage, a readable day's spent plus reserved money stays within the cap and the sum of what was settled above its reservations |
| `AppSpendFiles.ChargedExactly` | src/jainsons_llm_router/app_spend.py:100-104 | a reservation closed within its lifetime, before any operation saw it expired, is charged exactly what its closing says, whatever others did in between; closed after its lifetime, nothing at all |
| `AppSpendFiles.AlertedOnce` | src/jainsons_llm_router/app_spend.py:212-219 | the first raising of an alert that is written says so, and every later one that day, whatever happens in between, says that it was raised before |
| `AppSpends.AppSpend.LockedState` | src/jainsons_llm_router/app_spend.py:107-153 | absent reads as empty, unreadable or invalid as a used-up cap that is written at once, and reservations older than the lifetime are dropped; other days are untouched |
| `AppSpends.AppSpend.Reserve` | src/jainsons_llm_router/app_spend.py:170-181 | file and answer are those of `ReserveOn` on today's file, and only that file changes; `GrantedExactly` says when it is granted and what the file then holds |
| `AppSpends.AppSpend.Settle` | src/jainsons_llm_router/app_spend.py:194-198 | charges the reservation's own day file if the reservation is still there, and only that file changes |
| `AppSpends.AppSpend.SettleUnknown` | src/jainsons_llm_router/app_spend.py:200-205 | charges the reserved amount to the reservation's own day file if the reservation is still there |
| `AppSpends.AppSpend.Release` | src/jainsons_llm_router/app_spend.py:207-210 | frees the reservation on its own day file and charges nothing |
| `AppSpends.AppSpend.AlertOnce` | src/jainsons_llm_router/app_spend.py:212-219 | true exactly for the first time a name is raised on a day, and remembers it |
| `AppSpends.AppSpend.SpentToday` | src/jainsons_llm_router/app_spend.py:221-238 | the day's spent money; read-only it writes nothing unless the file is unreadable |
| `AppAttempts.ActualCost` | src/jainsons_llm_router/app_chat.py:258-260 | the settled cost of a reply is at least its exact price and at least one micro-USD, and less than one micro-USD above the price when it is more than one |
| `AppAttempts.CostWithinMicro` | src/jainsons_llm_router/app_chat.py:258-260 | a reply within the estimated input and requested output costs less than one micro-USD more than was reserved for it |
| `AppAttempts.SpendWithinTokens` | src/jainsons_llm_router/app_spend.py:170-210 | over any run of operations on a day, by any number of processes, with expiry, failing writes and damage: within the cap and one micro-USD for each settlement, if every settled reply stays within the tokens its reservation was priced for |
| `AppAttempts.AttemptConserves` | src/jainsons_llm_router/app_chat.py:341-393 | reserving and closing one attempt with nothing in between raises its own day's money by exactly the charge of its closing, leaves other days alone and no reservation of its own open |
| `AppAttempts.AttemptBounded` | src/jainsons_llm_router/app_chat.py:341-393 | one attempt keeps every day within its bound plus what it settles above its reservation, however its writes and clocks behave |
| `AppAttempts.CapHeldExactly` | src/jainsons_llm_router/app_spend.py:170-198 | across one reservation and its settlement, every day file within its cap that grants the reservation stays within it if and only if the settlement is no more than was reserved |
| `AppRuns.TurnKeeps` | src/jainsons_llm_router/app_spend.py:170-238 | an operation of any call changes one day's file: its open reservations go on being those that calls hold, and its money rises by the charge of the closing |
| `AppRuns.InterleavedConserves` | src/jainsons_llm_router/app_spend.py:170-238 | however the operations of any number of calls interleave, while accounting works for them, each day's open reservations are exactly those that calls still hold for it, and the day's money is exactly the sum of the charges of the closings so far |
| `AppRuns.InterleavedCappedPlusExcess` | src/jainsons_llm_router/app_spend.py:170-210 | however the operations of any number of calls interleave, with reservations that expire, writes that fail and files that are damaged, each day stays within its cap and what was settled on it above the reservations finished |
| `AppRuns.InterleavedWithinMicro` | src/jainsons_llm_router/app_chat.py:338-369 | hence, over the same runs, within its cap and one micro-USD for each reply settled on it, if every reply's token counts stay within those its reservation was priced for |
| `AppRuns.AttemptIsTurns` | src/jainsons_llm_router/app_chat.py:341-393 | an attempt of either lane is one holding turn and, if granted, one finishing turn of that interleaving, with the same files, however its writes end |
| `AppSpendAnswers.GrantedExactly` | src/jainsons_llm_router/app_spend.py:170-181 | on a readable file a reservation is granted if and only if what is spent, the reservations at most ten minutes old and the estimate fit the cap, and otherwise exhausted; the file then holds those reservations and the granted one |
| `AppSpendAnswers.ClosedExactly` | src/jainsons_llm_router/app_spend.py:194-210 | closing a reservation still held costs what is settled, all of it when unknown, nothing when released; closing another costs nothing |
| `AppSpendAnswers.SpentExactly` | src/jainsons_llm_router/app_spend.py:221-238 | the day's spent money is answered, without a write when that is asked for |
| `AppSpendAnswers.RaisedExactly` | src/jainsons_llm_router/app_spend.py:212-219 | an alert is answered as new if and only if its name was not raised that day, and is then added |
| `AppSpendAnswers.FailedWrites` | src/jainsons_llm_router/app_spend.py:155-168 | an operation whose write fails is unavailable and leaves the file as it was |
| `AppSpendAnswers.DamagedDayIsClosed` | src/jainsons_llm_router/app_spend.py:107-153 | a file with negative money or a malformed day is replaced by a day that has spent its cap and refuses whatever is asked; an operation that cannot replace it is unavailable |
| `AppSpendAnswers.HomeExactly` | src/jainsons_llm_router/app_spend.py:183-192 | a reservation is looked for in the file of the calendar day its id begins with, and in today's if it begins with none |
| `AppSpendAnswers.DateExactly` | src/jainsons_llm_router/app_spend.py:183-192 | what is read as a date is what is written as one and names a day of the calendar, leap years included |
| `AppSpendAnswers.HoldGrantedExactly` | src/jainsons_llm_router/app_spend.py:170-181 | among other calls, while accounting works, a reservation is granted if and only if the charges so far, the reservations that calls still hold and its own amount fit the cap |
| `AppSpendAnswers.LookAnswersCharges` | src/jainsons_llm_router/app_spend.py:221-238 | and a look at a day answers the sum of the charges of its closings so far |
| `AppChat.TryBackend` | src/jainsons_llm_router/app_chat.py:341-391 | one attempt leaves the files of a reservation and its closing as the reply calls for, and ends the call on a settled reply or on failed accounting |
| `AppChat.CompleteChat` | src/jainsons_llm_router/app_chat.py:282-393 | the loop ends as the chain does from its first backend, with the same files and the same attempts; `ChargesRightly` says what they cost and `CallStops` where and why it ends |
| `AppChat.ChatShape` | src/jainsons_llm_router/app_chat.py:300-393 | attempts are in chain order at usable backends, within their deadlines and the call's, later ones with two seconds left; all but the last failed and were recorded; an attempt is settled exactly when a text came back and free exactly when nothing was sent; an answer reports the last one's settled cost and their number |
| `AppChat.FallbackGetsItsTurn` | src/jainsons_llm_router/app_chat.py:320-334 | if at least two seconds of the deadline are kept back, a first attempt that fails by its own deadline is followed by an attempt at the next usable backend unless its reservation is refused |
| `AppChat.ChatConserves` | src/jainsons_llm_router/app_chat.py:341-393 | with working accounting every reservation is closed once on its own day, none stays open, and each day's money grows by exactly the settled cost and the reserved amounts of unknown outcomes |
| `AppChat.ChatCappedPlusExcess` | src/jainsons_llm_router/app_chat.py:338-369 | a call keeps every day within the cap and what it settles there above its reservations, however its writes and clocks behave |
| `AppChat.ClosingWithinTokens` | src/jainsons_llm_router/app_chat.py:338-369 | what a call settles, when replies stay within their estimates, is the price of token counts within those its reservation was priced for |
| `AppChat.ChatKeepsBound` | src/jainsons_llm_router/app_chat.py:338-369 | hence within the cap and one micro-USD per reply it settles there, if replies stay within their estimates |
| `AppChat.ChatIsTurns` | src/jainsons_llm_router/app_chat.py:320-393 | a whole call is a sequence of turns of the interleaving with the same files, which finish the reservations of its attempts as it closes them |
| `AppChatAnswers.ChargesRightly` | src/jainsons_llm_router/app_chat.py:336-369 | every attempt reserves the price of the estimated input and the requested output; a text is settled, and reported, at the rounded price of the tokens it reports, of one for every three characters sent and every four received if it reports none; an empty or ambiguous failure is charged as unknown |
| `AppChatAnswers.ReservedExactly` | src/jainsons_llm_router/app_chat.py:336-338 | the reservation is priced for the caller's output limit within the lane's and the backend's minimum, and is at least one micro-USD |
| `AppChatAnswers.DeadlineExactly` | src/jainsons_llm_router/app_chat.py:302-303 | a call may take as long as its caller asks within the lane's limit |
| `AppChatAnswers.SkippedExactly` | src/jainsons_llm_router/app_chat.py:318-334 | a backend is passed over if and only if it has no key or is out of time: its share for the first usable one with another to go on to, two seconds for a later one |
| `AppChatAnswers.CallStops` | src/jainsons_llm_router/app_chat.py:315-393 | there is one backend at which a call stops; every usable one before it was attempted or out of time, and what stopped it there decides the end: no room under the cap, a write that failed, a text, or the end of the chain |
| `AppDecide.TryBackend` | src/jainsons_llm_router/app_decide.py:246-286 | one attempt leaves the files of a reservation and its closing, and ends the call or not as the failure or the reply calls for |
| `AppDecide.FinishBackend` | src/jainsons_llm_router/app_decide.py:258-322 | payment required or nothing sent releases, any other failure is charged as unknown, a malformed reply is charged as unknown, a usable one is settled |
| `AppDecide.Decide` | src/jainsons_llm_router/app_decide.py:189-324 | an invalid deadline is refused with nothing touched; otherwise the loop ends as the chain does, with the same files and attempts |
| `AppDecide.DecideShape` | src/jainsons_llm_router/app_decide.py:240-324 | attempts are in chain order before the deadline, all but the last failed and recorded; at most one reply is paid for; an attempt is free exactly when payment was asked for or nothing was sent; an answer reports its settled cost; exhausted credit is never charged |
| `AppDecide.DecideConserves` | src/jainsons_llm_router/app_decide.py:250-322 | with working accounting every reservation is closed once on its own day and each day's money grows by exactly the settled cost and the reserved amounts of unknown outcomes, the credit alert included |
| `AppDecide.FreeOutputWithinMicro` | src/jainsons_llm_router/app_decide.py:166-186 | that holds of every reply that reports no cost and no more input than estimated, when output is free |
| `AppDecide.DecideCappedPlusExcess` | src/jainsons_llm_router/app_decide.py:246-322 | a call keeps every day within the cap and what it settles there above its reservations, whatever cost a provider reports and however its writes and clocks behave |
| `AppDecide.DecidePassesCap` | src/jainsons_llm_router/app_decide.py:246-299 | a call that passes the cap: on a day with just enough left for what the first backend reserves, a usable reply that costs more is settled in full, and the day's money exceeds its cap |
| `AppDecide.DecideKeepsBound` | src/jainsons_llm_router/app_decide.py:246-322 | hence within the cap and one micro-USD per reply it settles there, if usable replies cost less than one micro-USD more than was reserved |
| `AppDecide.DecideIsTurns` | src/jainsons_llm_router/app_decide.py:240-322 | a whole call, its alert included, is a sequence of turns of the interleaving with the same files and the same closings |
| `AppDecideAnswers.ChargesRightly` | src/jainsons_llm_router/app_decide.py:166-186 | every attempt reserves the price of its input; a usable reply is settled, and reported, at the cost it states, or at the rounded price of its tokens; payment asked for or nothing sent is free, anything else is charged as unknown |
| `AppDecideAnswers.DeadlineExactly` | src/jainsons_llm_router/app_decide.py:221-233 | a call may take as long as its caller asks within the lane's limit |
| `AppDecideAnswers.CallStops` | src/jainsons_llm_router/app_decide.py:238-324 | there is one backend at which a call stops; every one before it with a key and time was attempted and failed, and what stopped it there decides the end: no room, a write that failed, payment asked for, a reply, or the end of the chain |

## Left out

- Locks, file descriptors, flushes and permissions: an operation is one step, and
  only the order of its durable writes and the ways they can end are kept.
- SHA-256, canonical JSON and the codec: an ideal digest, and any codec whose
  lines contain no line break and decode to what was encoded.
- Fields of events and requests that no decision reads: provider, service,
  caller, correlation, policy version, reasons, attempt number and times.
- Schema versions, missing fields, type checks and the snapshot's own digest:
  single checks that refuse a load.
- `diagnose`, `unresolved_reservations`, zstd, and archive names beyond their
  month.
- Caller, environment, size and task checks before a route is used, adapter
  health exceptions, and the identifier formats of `models.py`.
- Attempt summaries, logging and alerts, except the credit alert of the decision
  lane, which is written to the spend store. In particular the budget threshold
  alerts after each attempt, which write only alert names and expiry.
- The asynchronous copies of the router's methods, and task cancellation.
- HTTP: a dispatch is an outcome. What a reply's text or answers contain is not
  part of this model, only whether they are usable.
- Floating point: money in the application lanes is exact. The ledger's money is
  integer micro-USD in the program too.
- Digits outside ASCII in a reservation id's day.
- `runtime_policy.py`, `client.py`, `rlm.py`, `observability.py`,
  `free_check.py`, `app_alerts.py` and `sync_from_harness.py`: only their numeric
  limits appear, as what a valid lane is.
- What an adapter does is fixed per candidate within one call, which loses nothing
  because a route may not list a candidate twice.
- RouterRuns.ChargedAtMostOnce: a provider that charges for a request it
  reported as not received or as rejected free of charge is outside the claim.
- FileLedgers.FileLedger.LoadState: leaves out the schema version, missing fields
  and the snapshot's own digest, single checks that refuse a load; the reading of
  an old table is modelled on its own.
- FileLedgers.FileLedger.Initialize: leaves out a failure half way, which leaves
  files that a second initialisation refuses.
- AppAttempts.AttemptConserves: speaks of an attempt with nothing between its two
  operations; other calls in between are in `InterleavedConserves`.
- AppAttempts.AttemptBounded: the same; any operations in between are in
  `SpendCappedPlusExcess`.
- AppChat.ChatConserves: a call alone on the store; several at a time are in
  `InterleavedConserves`, as sequences of turns (`ChatIsTurns`).
- AppChat.ChatCappedPlusExcess: a call alone on the store; any operations in
  between are in `SpendCappedPlusExcess`.
- AppChat.ChatKeepsBound: the same; several calls at a time are in
  `InterleavedWithinMicro`.
- AppDecide.DecideConserves: a call alone on the store; several at a time are in
  `InterleavedConserves`, as sequences of turns (`DecideIsTurns`).
- AppDecide.DecideCappedPlusExcess: a call alone on the store; any operations in
  between are in `SpendCappedPlusExcess`.
- AppDecide.DecideKeepsBound: the same, as in `SpendBound`; that replies cost so
  little is an assumption, since a provider may report any cost.
