# Cashmere, verified

Cashmere replicates an append-only journal of amounts between peers. Each entry carries a map clock as its
stamp, an insert is flooded synchronously through the connected brokers, and a ledger folds the entries into a
balance. This project models those parts of the code in Dafny and proves what they keep, over every input,
every network and every run.

The broker class appears twice, because two kinds of network end their floods for different reasons.
`Journals.Journal` is a journal on an arbitrary graph, cycles included, without distance tables.
`Brokers.Broker` is a hub or a journal on a forest, with the tables, and does everything the source's class does
there: connect, exchange, insert, query, refresh and relay. Every method of a class is tied to a function on
values, and the theorems are about those functions.

## How it is built

- **Clocks and entries.** `Clocks` (merge, tick, the orders, the admission test), `Entries`.
- **Ledger.** `Ledgers`: the fold, the row contests behind it, and exactly when order does not matter.
- **Replication.** `Flooding` (one insert through any graph, with re-entry), `Runs` (the system as a state
  machine, deliveries in any order, and its invariant), `Convergence` (causal delivery), `Agreement` (appends
  on a connected network), `Deltas` (what a query returns), `Batches` and `Chains` (what inserting a batch leaves
  in store and clock), `Handshakes` (two journals), `Healing` (two networks), `Listings` and `Reports` (what
  users see), `Counterexamples`, `Journals` (the objects).
- **Text and files.** `Numbers`, `Text`, `RoundTrip`, `Logs` (printing and reading), `Grammars` (what readers
  accept), `Streams` (the readers as they consume a stream), `Files`, `Indexes`, `FileJournals`, `CacheJournals`
  (the two stores).
- **Routing.** `Forests` (trees of brokers, far sides, hop counts), `Tables` (what a broker provides),
  `Refreshes` (the cascade), `Joins` and `Connects` (connecting two trees), `Hubs` (floods through forests of
  hubs and journals), `TreeAgreement` (appends there), `Meetings` (connecting while entries are exchanged),
  `Meshes` (whole lives of a forest), `Exchanges` (queries through hubs, notes insert by insert), `Answers` (what a
  query returns), `Unions` (what connecting two trees leaves in their journals), `Lives` (agreement over causal
  lives), `Relays`, `Brokers` (the objects).

Main results, hardest first:

1. Flooding ends on any graph, from any clocks, and the journals that save the entry are exactly those
   reachable through journals that admit it; the number of journals still ready is what goes down.
2. On a connected network that starts empty, cycles included, all journals agree after every append, replace
   or erase. On runs with arbitrary deliveries, stamps identify entries and dominate what they count; on
   causal runs a journal holds exactly what its clock counts, and a step leaves a gap exactly when it is not causal.
3. A batch of a handshake, in whatever order it is answered: the clock ends at the merge of the two exactly when
   chains of the batch carry every missing count, and a store ends at the union exactly when the batch is in
   causal order. Ascending order per author suffices for the clock. The same holds for every journal of two
   networks, each in agreement, that are linked after a partition.
4. Every life of a forest of hubs and journals (starting with single empty brokers; connecting tree to tree while
   each side is sent what the other side stores; booking entries anywhere in between) keeps all tables exact. A query
   then returns the full delta of one journal on the side asked, and nothing where there is none. Connecting two
   trees in step leaves every journal of each with everything both stored if and only if what its tree was sent is
   in causal order; so as long as connects are causal, all brokers of a tree, hubs included, count the same at every
   moment, its journals hold the same entries, and nothing booked is lost.
   Relay on exact tables shortens the way at each hop and is an append at the owner. Floods through such forests
   end and take exactly the open ways, and journals of one tree agree after all bookings.
5. A row of the ledger is independent of list order exactly when one entry supersedes all others. When every
   target has at most two editors, the whole book is.
6. Text round trips with any spacing, and only text that spells out a value is accepted; a log file reads back; the
   stamp of an entry is its index into the logs, with the exact condition under which a lookup finds a saved entry on
   any run.

Where the code does less than one might hope:

- The admission test looks at the author's component alone, so an entry can be accepted before its
  dependencies, which the journal then refuses for the rest of the run (`Convergence.SkippedForever`,
  `Counterexamples.EqualClocksDifferentStores`). Hence the causal hypotheses on stores, but not on clocks.
- A cache lists by stamp, which need not keep one author's entries ascending, so even the clocks need not
  converge when a cache answers a handshake (`Counterexamples.CacheHandshakeFallsShort`). They do exactly when the
  chains of `Chains.ClockMergesExactlyWhenCarried` exist: not in that answer (`CacheAnswerCarriesTooLittle`), but
  in some that are not ascending either (`DescendingAnswerCanCarryAll`).
- An insert on a port that does not exist is saved before it is refused, and not counted by the clock
  (`Journals.Journal.Insert`, `Brokers.Broker.Insert`).
- An author written into a table without an entry from behind that port would stand there at distance 0, and
  the table would be wrong. Module `Connects` takes any list of notes without such authors (`Connects.NotesOk`);
  `Meshes.ReachedTablesAreExact` and `Exchanges.ConnectingIsMeeting` show that none ever comes up.
- A query is answered by one journal only, so what other journals of its tree hold beyond it is not sent; `Lives` is about
  trees in step, where there is no such thing.
- "Beats" is not transitive with three editors (`Ledgers.ThreeEditorsCanDisagree`).
- Out of causal order the early exit of the file lookup can hide a saved entry (`Indexes.BreakHidesEntry`).
- The prose documentation lets the smaller id win a tie; the code (cashmere/crdt/src/ledger.cpp:62-63), and the model, let the
  larger id win.

Assumptions about callers, all needed for the runs: ids are distinct and nonzero (0 marks an invalid clock),
author `a`'s entries are stamped at journal `a`, and runs start empty. A connection is symmetric
(`Flooding.Wired`): each side knows the port it has at the other.

## Model

| member | source | states |
|---|---|---|
| Clocks.SmallerIsStrictlyBelow | cashmere/crdt/src/clock.cpp:54-57 | the merge-based comparison is exactly the strict pointwise order |
| Clocks.MergeIsLeastUpperBound | cashmere/crdt/src/clock.cpp:38-45 | merge is the least upper bound in the pointwise order, with the larger count per component |
| Clocks.ConcurrentIsIncomparable | cashmere/crdt/src/clock.cpp:59-62 | concurrent clocks are exactly the incomparable ones |
| Clocks.NextIsNew | cashmere/crdt/src/clock.cpp:87-98 | an admitted stamp is not below the admitting clock and is refused after the merge |
| Clocks.TickIsNext | cashmere/crdt/src/clock.cpp:47-52 | a ticked clock is the author's next stamp and dominates the clock it came from |
| Clocks.MergeLoop | cashmere/crdt/src/clock.cpp:38-45 | the merge loop, in any iteration order of the other clock, computes the merge |
| Ledgers.Ledger.constructor | cashmere/crdt/src/ledger.cpp:20-37 | the constructor's loop over rows and running balance computes the fold of the whole list |
| Ledgers.RowsAreContests | cashmere/crdt/src/ledger.cpp:50-83 | each row of the fold is the outcome of its own target's contest, whatever the other rows |
| Ledgers.ConflictIsResolved | cashmere/crdt/src/ledger.cpp:56-66 | of two edits of one entry the causally later one holds the row in either order, and of two concurrent ones by different authors the one with the larger id; the balance follows |
| Ledgers.EditReplacesEntry | cashmere/crdt/src/ledger.cpp:20-83 | a later edit holds the row of its entry whichever is read first, and reading an entry again changes nothing |
| Ledgers.BookOfList | cashmere/crdt/src/ledger.cpp:20-37 | rows are exactly the targets seen, each held by an entry of that target, and the balance is their sum |
| Ledgers.BalanceIsTotal | cashmere/crdt/src/ledger.cpp:24-32 | from any consistent book, the running balance stays the sum of the rows after every list |
| Ledgers.OnlyTargetOrderMatters | cashmere/crdt/src/ledger.cpp:20-37 | lists that agree on each target's subsequence give the same rows and balance |
| Ledgers.OrderFreeExactlyWhenWon | cashmere/crdt/src/ledger.cpp:50-66 | a row is the same under all permutations if and only if some entry supersedes all others of its target, or there is none |
| Ledgers.BookOrderFreeExactlyWhenWon | cashmere/crdt/src/ledger.cpp:20-37 | all rows are the same under all permutations if and only if every target seen has a winner |
| Ledgers.OrderFreeBooks | cashmere/crdt/src/ledger.cpp:20-37 | with a winner per target every permutation gives the same rows and the same balance |
| Ledgers.TwoEditorsAreTransitive | cashmere/crdt/src/ledger.cpp:56-63 | with at most two editors whose own edits are ordered, beating is transitive and irreflexive on a target's edits |
| Ledgers.TwoEditorsAreComparable | cashmere/crdt/src/ledger.cpp:56-63 | and of two edits exactly one beats the other |
| Ledgers.TwoEditorsHaveWinner | cashmere/crdt/src/ledger.cpp:50-66 | so a winning edit exists and the row does not depend on the order |
| Ledgers.TwoEditorBooksAreOrderFree | cashmere/crdt/src/ledger.cpp:20-37 | when every edited target has at most two editors, each in causal order after the target, and stamps identify entries, every permutation gives the same rows and balance |
| Ledgers.CausalOrderKeepsLatest | cashmere/crdt/src/ledger.cpp:56-63 | folding a causally ordered list never leaves a row held by an edit that another edit of the target supersedes causally |
| Ledgers.ThreeEditorsCanDisagree | cashmere/crdt/src/ledger.cpp:56-63 | three editors suffice for a cycle: two causal orders of the same four entries give balances 20 and 10 |
| Flooding.TakeOnce | cashmere/src/journalbase.cpp:36-41 | taking an entry removes exactly that journal from those still ready, the measure of every flood |
| Flooding.InsertTakes | cashmere/src/hub.cpp:93-111 | an insert changes only journals that were ready, each takes the entry once, and it passes over every link it should |
| Flooding.FloodTakesReachable | cashmere/src/hub.cpp:99-109 | the journals that take the entry are exactly those reachable through ready journals; all others are unchanged |
| Runs.RunKeepsInv | cashmere/src/journalbase.cpp:34-43 | the invariant (known clocks, well-formed and distinct stamps, increasing logs, clocks as least bounds) holds on every run |
| Runs.StampsIdentifyAndDominate | cashmere/crdt/src/clock.cpp:38-57 | (author, sequence) and stamp both identify an entry, and a clock that counts an entry dominates its whole stamp |
| Runs.ClockIsLeastBoundOfSaved | cashmere/plugins/src/cache.cpp:26-33 | on every run the clock is the least upper bound of the saved stamps and the duplicate branch of saving is never reached |
| Runs.StoresOnlyGrow | cashmere/src/hub.cpp:99-99 | clocks and stores only grow along a run |
| Runs.RefusedForever | cashmere/src/journalbase.cpp:36-38 | an entry the clock counts, accepted or skipped, is refused forever after |
| Runs.LogsFitClock | cashmere/src/journalbase.cpp:34-43 | on every run each author's log ascends strictly and has no more lines than the clock counts |
| Runs.AppendIsAdmitted | cashmere/src/brokerbase.cpp:200-203 | a locally stamped entry is always admitted and moves the clock to the ticked one |
| Convergence.GapFreeExactlyWhenCausal | cashmere/src/journalbase.cpp:34-43 | accepting an entry leaves a gap-free store gap-free if and only if it arrives in causal order |
| Convergence.CausalRunIsGapFree | cashmere/src/journalbase.cpp:34-43 | on causal runs every journal holds exactly entries 1..clock[a] of each author |
| Convergence.EqualClocksEqualStores | cashmere/src/journalbase.cpp:34-43 | on causal runs equal clocks mean equal logs and equal stores |
| Convergence.SkippedForever | cashmere/src/hub.cpp:99-99 | an entry accepted ahead of a dependency makes that dependency unsaved and refused for the rest of the run |
| Agreement.AppendExtendsRun | cashmere/src/brokerbase.cpp:200-213 | an append with its whole flood is a piece of a run |
| Agreement.InsertExtendsRun | cashmere/src/hub.cpp:93-111 | so is the insert of an issued entry anywhere |
| Agreement.AppendKeepsAgreement | cashmere/src/hub.cpp:93-111 | on a connected network in agreement an append is taken once by every journal |
| Agreement.ConnectedNetworkAgrees | cashmere/src/brokerbase.cpp:200-213 | from empty, on any connected graph, after all calls all clocks and stores are equal and hold one entry per call in call order |
| Listings.FileListingIsSorted | cashmere/plugins/src/file.cpp:55-69 | on every run the file journal lists every saved entry once, by author and then sequence |
| Listings.MapListingIsSorted | cashmere/plugins/src/cache.cpp:43-50 | the cache lists its map exactly, in the order of stamps that LexLessExactly describes |
| Listings.LexLessExactly | cashmere/plugins/src/cache.cpp:43-50 | that order: where two stamps first differ, the smaller count comes first; if only one has the author, it comes first exactly when the other goes on to a later author |
| Listings.LargerStampIsLater | cashmere/plugins/src/cache.cpp:43-50 | so of two stamps of the same authors the smaller is listed first |
| Listings.ListingHoldsSaved | cashmere/plugins/src/file.cpp:55-69 | both plugins list exactly what was saved |
| Reports.ListingIsPermutation | cashmere/plugins/src/cache.cpp:43-50 | on every run a listing, of either plugin, is a permutation of the store |
| Reports.BalanceIsSumOfRows | cashmere/crdt/src/ledger.cpp:24-32 | the balance reported is the sum of the values the rows of the listing hold |
| Reports.EqualClocksEqualReports | cashmere/plugins/src/file.cpp:55-69 | on causal runs file journals with equal clocks give the same list and the same balance |
| Reports.EqualClocksEqualBooks | cashmere/crdt/src/ledger.cpp:20-37 | with a winner per target the books agree across plugins too |
| Reports.FewEditorsEqualBooks | cashmere/crdt/src/ledger.cpp:20-37 | on causal runs two journals with equal clocks have equal books when each edited target has at most two editors, all after the target; the order of one editor's edits comes from the run |
| Reports.ConnectedNetworkReports | cashmere/src/brokerbase.cpp:200-213 | on any connected network that starts empty, after all calls lists and balances agree, across plugins too with a winner or at most two editors per target |
| Deltas.DeltaIsExact | cashmere/src/journalbase.cpp:45-54 | in every reachable state a query returns exactly the entries passing the one-component test, never one the asker holds, and exactly what a gap-free asker lacks |
| Deltas.Collect | cashmere/src/journalbase.cpp:45-54 | the query loop, over any listing, collects the delta in listing order |
| Batches.BatchMergesClocks | cashmere/src/brokerbase.cpp:187-193 | a delta in ascending order per author moves the clock to the merge of both |
| Chains.ClockMergesExactlyWhenCarried | cashmere/src/brokerbase.cpp:187-193 | in any order, the clock ends at the merge if and only if for every author counted further there is a chain of batch entries, the first covered or next for the asker, each later one covered or next given the stamp before it, the last counting that author in full |
| Batches.AllAcceptedExactlyWhenCausal | cashmere/src/brokerbase.cpp:187-193 | in any order, every entry of a batch without holes or repetitions is saved if and only if the batch is in causal order |
| Batches.RefusedExactlyWhenCovered | cashmere/src/brokerbase.cpp:187-193 | an entry of an ascending batch is refused if and only if an earlier accepted one covers its sequence number |
| Handshakes.BatchAtOneSide | cashmere/src/brokerbase.cpp:187-193 | between gap-free journals of any reachable state, the answer in any order merges the clock exactly when chains carry it, and leaves the union exactly when it is causal |
| Handshakes.HandshakeConverges | cashmere/src/hub.cpp:50-60 | the same for both ends of an exchange: each clock is the merge if and only if its batch carries all missing counts, each store the union if and only if its batch is causal, in any batch order |
| Handshakes.AnswersAreBatches | cashmere/src/journalbase.cpp:45-54 | what a journal of either plugin answers is such a batch: exactly what is missing, nothing twice |
| Handshakes.FileBatchesAreAscending | cashmere/plugins/src/file.cpp:55-69 | what a file journal answers keeps each author's entries ascending, which is enough for the clocks |
| Healing.PartitionHeals | cashmere/src/hub.cpp:50-60 | when two networks, each in agreement and gap-free, are linked and exchange, every journal of a side ends at the merged clock exactly when that side's batch carries it, and at the union exactly when that batch is causal |
| Counterexamples.EqualClocksDifferentStores | cashmere/src/hub.cpp:99-99 | [{aa:1,bb:1}, {bb:1}] into an empty journal loses the second entry while the clocks agree |
| Counterexamples.FullIsReachable | cashmere/src/brokerbase.cpp:200-203 | journal 2 really comes to hold the store of the next rows: two bookings of its own around one it receives |
| Counterexamples.CacheListsBackwards | cashmere/plugins/src/cache.cpp:43-50 | a reachable cache lists one author's entries in descending order |
| Counterexamples.CacheHandshakeFallsShort | cashmere/src/hub.cpp:50-60 | and answering an empty journal with it leaves the clocks different |
| Counterexamples.CacheAnswerCarriesTooLittle | cashmere/src/hub.cpp:50-60 | the exact condition fails on that answer: no chain carries the second entry of its author |
| Counterexamples.DescendingAnswerCanCarryAll | cashmere/src/hub.cpp:50-60 | another answer is not ascending either, meets the condition, and merges the clocks |
| Journals.Journal.Save | cashmere/plugins/src/cache.cpp:26-33 | saves unless a cache already has the stamp |
| Journals.Journal.Insert | cashmere/src/journalbase.cpp:34-43 | on the objects, an insert with all its synchronous forwarding has the effect of the value-level flood and returns the new clock or the invalid one; on a port that does not exist the entry is saved, not counted, and refused |
| Journals.Journal.Forward | cashmere/src/hub.cpp:93-111 | merges the clock first, then forwards to every other port |
| Journals.Journal.SendToOthers | cashmere/src/hub.cpp:103-109 | the loop over the ports skips the sender and reaches every other peer |
| Journals.Journal.Append | cashmere/src/brokerbase.cpp:200-203 | stamps with the ticked clock and inserts; succeeds exactly when the entry is admitted and valid |
| Journals.Journal.Replace | cashmere/src/brokerbase.cpp:205-208 | an append of an altering record |
| Journals.Journal.Erase | cashmere/src/brokerbase.cpp:210-213 | an append of value 0 that alters |
| Journals.Journal.InsertBatch | cashmere/src/brokerbase.cpp:187-193 | on a port that exists, inserts one by one whatever the outcome of each |
| Journals.Journal.Query | cashmere/src/journalbase.cpp:45-54 | the loop collects exactly the delta |
| Journals.Journal.Exchange | cashmere/src/hub.cpp:50-60 | both deltas are computed before either is inserted, then both are inserted |
| Journals.Journal.LinkTo | cashmere/src/hub.cpp:31-67 | one more port on each of two journals, each knowing the other's number; the objects then show the larger wiring |
| Journals.Journal.Connect | cashmere/src/hub.cpp:31-62 | linking two journals of any graph and exchanging entries leaves the objects in the state of the value-level exchange on the larger wiring |
| Numbers.PrintRoundTrip | cashmere/crdt/src/entry.cpp:29-33 | a printed number, decimal or hexadecimal, reads back as itself |
| Numbers.PrintIsCanonical | cashmere/crdt/src/entry.cpp:29-33 | printed digits are lower case and there is no leading zero |
| RoundTrip.EntryRoundTrip | cashmere/crdt/src/entry.cpp:76-94 | the tokens of an entry under any spacing, followed by any text, read back as the entry and leave that text |
| Logs.PrintedIsStd | cashmere/crdt/src/entry.cpp:29-38 | the printed form is one spacing of those tokens |
| Logs.PrintedExample | cashmere/crdt/src/entry.cpp:29-38 | one entry with its printed text in full |
| Logs.PrintedRoundTrip | cashmere/crdt/src/entry.cpp:35-94 | reading a printed entry followed by any text gives the entry and leaves the text |
| Logs.LogRoundTrip | cashmere/plugins/src/file.cpp:58-67 | a file of n printed lines reads back as the same n entries, or its first `count` |
| Streams.Stream.ReadSpaces | cashmere/utils/src/fileutils.cpp:31-38 | consumes exactly the leading spaces and tells whether there were any |
| Streams.Stream.ReadChar | cashmere/utils/src/fileutils.cpp:40-48 | consumes spaces and the expected character, or only spaces |
| Streams.Stream.ReadPair | cashmere/utils/src/fileutils.cpp:50-70 | reads a pair, or stops where the first token is missing |
| Streams.Stream.SeekToLine | cashmere/utils/src/fileutils.cpp:72-79 | rewinds to the start unless the stream failed, then counts down lines with the early stop at the end of the file |
| Streams.ReadClock | cashmere/crdt/src/clock.cpp:100-123 | the reader of clocks is the reader function of the round trip |
| Streams.ReadPairs | cashmere/crdt/src/clock.cpp:108-115 | the do-while loop over pairs |
| Streams.ReadData | cashmere/crdt/src/entry.cpp:51-74 | the reader of data is the reader function of the round trip |
| Streams.ReadEntry | cashmere/crdt/src/entry.cpp:76-94 | the reader of entries is the reader function of the round trip |
| Grammars.PairIsSpelled | cashmere/utils/src/fileutils.cpp:50-70 | an accepted pair was spelled out: brace, number, comma, number, brace, with blanks between |
| Grammars.ClockIsSpelled | cashmere/crdt/src/clock.cpp:100-123 | an accepted clock was spelled out as pairs with commas between braces, a later pair of an author overwriting an earlier one |
| Grammars.DataIsSpelled | cashmere/crdt/src/entry.cpp:51-74 | an accepted data record was spelled out, and what was read is what was spelled |
| Grammars.EntryIsSpelled | cashmere/crdt/src/entry.cpp:76-94 | an accepted entry was spelled out, and the rest of the text is left |
| Grammars.IncompleteTextIsRefused | cashmere/crdt/src/entry.cpp:51-94 | text without a brace or comma that its form needs is refused |
| Files.FilenameIsInjective | cashmere/utils/src/fileutils.cpp:81-89 | no two authors share a file |
| Files.FilenameHasSixteenDigits | cashmere/utils/src/fileutils.cpp:81-89 | a 64-bit id names its file by sixteen lower-case hexadecimal digits with its own value |
| Files.AddLineHolds | cashmere/plugins/src/file.cpp:30-37 | saving keeps every file equal to its author's printed log |
| Files.FilesListSaved | cashmere/plugins/src/file.cpp:55-69 | what is read back from the files is the listing of what was saved |
| Files.SeekInLog | cashmere/utils/src/fileutils.cpp:72-79 | counting down to line k of a log of n lines lands on the line, or on the end with the count spent there; so it succeeds up to n + 2 and fails beyond |
| Files.FindIsLookup | cashmere/plugins/src/file.cpp:39-53 | the search over the bytes of the files is the search over the logs |
| Indexes.FoundExactlyWhen | cashmere/plugins/src/file.cpp:39-53 | on any run a saved entry is found by its stamp if and only if its line is where the stamp says and the smaller authors' seeks succeed |
| Indexes.IndexAgreesWithLog | cashmere/plugins/src/file.cpp:39-53 | on causal runs every saved entry is found by its stamp, every other clock finds the empty record of value 0, and the early exit hides nothing |
| Indexes.C1IsStamped | cashmere/src/brokerbase.cpp:200-203 | the entry of the next row is stamped so by an author that received two entries before |
| Indexes.BreakHidesEntry | cashmere/plugins/src/file.cpp:43-45 | out of causal order the early exit can hide a saved, listed entry |
| FileJournals.JournalFile.Save | cashmere/plugins/src/file.cpp:30-37 | appends the printed line to the author's file and the entry to the store |
| FileJournals.JournalFile.EntryAt | cashmere/plugins/src/file.cpp:39-53 | the lookup loop returns what the search over the saved logs returns, and the empty record of value 0 for a stamp nothing has |
| FileJournals.JournalFile.AllEntries | cashmere/plugins/src/file.cpp:55-69 | the reading loops return the listing of the saved entries |
| CacheJournals.JournalCache.Save | cashmere/plugins/src/cache.cpp:26-33 | refuses a stamp it has and then changes nothing, otherwise saves |
| CacheJournals.JournalCache.EntryAt | cashmere/plugins/src/cache.cpp:35-41 | the saved data of the stamp, or the empty record of value 0 |
| CacheJournals.JournalCache.AllEntries | cashmere/plugins/src/cache.cpp:43-50 | the loop over the map returns its listing, in the order of stamps |
| CacheJournals.CacheFindsSaved | cashmere/plugins/src/cache.cpp:35-41 | on every run the map finds each saved entry by its stamp and nothing under any other clock |
| Forests.EndsOnSameSide | cashmere/src/hub.cpp:113-131 | seen from any third broker both ends of a link lie beyond the same port |
| Forests.HopsIsShortest | cashmere/src/hub.cpp:182-192 | no walk is shorter than the hop count |
| Tables.ProvidesContents | cashmere/src/hub.cpp:182-192 | what is provided is the union of the sources one hop farther, the lowest port deciding |
| Tables.OfferIsExact | cashmere/src/hub.cpp:113-131 | if a broker's other tables are exact, what it provides through a port is exact for the peer |
| Refreshes.RefreshSpreads | cashmere/src/hub.cpp:79-91 | one refresh message makes every table on the receiving side exact and changes nothing on the sending side |
| Refreshes.OthersSpread | cashmere/src/hub.cpp:203-216 | the refresh loop makes exact what lies beyond the ports still to come, and changes nothing else |
| Joins.JoinIsForest | cashmere/src/hub.cpp:31-77 | linking two different trees gives a forest whose new ports have the old trees beyond them |
| Connects.ConnectIsExact | cashmere/src/hub.cpp:31-77 | connecting two trees with exact tables leaves every table exact, whatever authors the exchange notes, provided each noted author is a journal on the far side of its port (NotesOk) |
| Hubs.InsertTakesOpen | cashmere/src/hub.cpp:93-111 | in a forest of hubs and journals the flood ends, and exactly the brokers all of whose way lets the entry pass take it, once |
| Hubs.TakersCountAndSave | cashmere/src/hub.cpp:99-99 | what taking is: every such broker, hub or journal, merges the stamp into its clock, a journal saves the entry last, a hub lets every entry pass, and no other broker changes |
| Hubs.JournalsOnlyInsert | cashmere/src/journalbase.cpp:34-43 | without hubs that flood is the flood on arbitrary graphs |
| TreeAgreement.BookingReachesTree | cashmere/src/hub.cpp:93-111 | where the journals of each tree agree, a booking is let through by every broker of the tree, taken once by each, and touches nothing else |
| TreeAgreement.ForestAgrees | cashmere/src/brokerbase.cpp:200-213 | in a forest of hubs and journals that starts empty, after any bookings the journals of a tree agree, and each holds one entry per booking made in its tree, in call order; each hub that started empty has the clock of the journals of its tree |
| Meetings.InsertNotesOk | cashmere/src/hub.cpp:100-101 | every author a flood writes into a table, of an entry received or booked here, is a journal on the side the entry came from |
| Meetings.MeetingIsExact | cashmere/src/hub.cpp:31-62 | connecting two trees and exchanging any entries from authors on the sending sides, floods included, leaves every table exact |
| Meshes.ReachedTablesAreExact | cashmere/src/hub.cpp:31-111 | in every state reached from single empty brokers, by connecting tree to tree, exchanging what the trees store and booking anywhere in between, the brokers form a forest, entries are by journals of their tree, and every table is exact; nothing is assumed about notes |
| Exchanges.QueryIsDrawn | cashmere/src/hub.cpp:133-145 | what a query through hubs returns is saved at some journal behind the asked broker, away from the asker |
| Exchanges.AuthorIsNoted | cashmere/src/hub.cpp:100-101 | an insert writes the author at distance 0 under the port it came in through, unless listed or refused, and nothing else into the receiver's tables |
| Answers.JournalAnswers | cashmere/src/journalbase.cpp:45-54 | asked from any side, a journal answers exactly the entries it lists that the asker's clock does not dominate |
| Answers.HubAnswers | cashmere/src/hub.cpp:133-145 | with exact tables a hub answers the full delta of a journal beyond the lowest port, the asker's aside, behind which there is one; such a port exists exactly when a journal lies on the side asked, and without one the answer is empty |
| Answers.ExchangedDeltas | cashmere/src/hub.cpp:50-51 | in a connect each end is sent the full delta of a journal of the other tree, or nothing if that tree has none |
| Exchanges.ConnectingIsMeeting | cashmere/src/hub.cpp:50-60 | so in every such state the exchange of a real connect is one of the acts of a life |
| Unions.BatchReachesJournals | cashmere/src/brokerbase.cpp:187-193 | a batch inserted on one side of a forest is taken by every journal of the side as if it were alone, whatever hubs stand between |
| Unions.ConnectedTreesUnite | cashmere/src/hub.cpp:31-62 | after a connect of two trees in step, every journal of either holds everything both stored if and only if what its tree was sent is in causal order, and counts what both counted if and only if chains carry it |
| Lives.ConnectKeepsSynced | cashmere/src/hub.cpp:31-62 | a connect with causal answers leaves one tree in step: one clock at all brokers, hubs included, and journals without gaps |
| Lives.CausalLivesAgree | cashmere/src/hub.cpp:31-111 | from empty brokers, as long as each connect is causal, in every state reached all brokers of a tree have one clock and its journals the same entries |
| Lives.NothingBookedIsLost | cashmere/src/brokerbase.cpp:200-203 | in such a life whatever was booked at a journal is stored, data and all, by every journal of its tree at every later moment |
| Connects.GrownTablesAreExact | cashmere/src/hub.cpp:31-77 | every forest grown by connecting single brokers has exact tables, provided the notes of each connect name journals on the far side of their ports (NotesOk) |
| Relays.NextHopOnExact | cashmere/src/hub.cpp:218-236 | with exact tables a broker keeps its own data, sends on through the one port that leads to the owner, and otherwise refuses |
| Relays.ForwardApproaches | cashmere/src/hub.cpp:242-242 | each forward shortens the way by one and does not go back |
| Relays.RelayIsAppendAtOwner | cashmere/src/journalbase.cpp:63-69 | data for a journal of the tree reaches it unchanged after exactly hop-count forwards and is appended there; id 0 is booked at the journal asked, under its own id, and finds no route at a hub; with no route nothing changes |
| Relays.RelayIsLocalAppend | cashmere/src/hub.cpp:218-243 | in a forest of journals only, that is the append of arbitrary graphs at the owner, so what is proved of appends there holds of relayed data |
| Relays.NextHopIsNearest | cashmere/src/hub.cpp:220-236 | on any tables, exact or not: a distance of 0 decides, else the nearest port and the lowest of the nearest, and no route only if no port but the sender's lists the author |
| Exchanges.RelayAnswersNewClock | cashmere/src/hub.cpp:229-242 | relay answers with the clock the owner has afterwards, its old one ticked, or with the invalid clock |
| Brokers.Broker.Sources | cashmere/src/hub.cpp:113-131 | the loop collects the tables of all valid ports but the sender's, and a journal adds itself |
| Brokers.Broker.UpdateProvides | cashmere/src/hub.cpp:182-192 | the loop adds a hop to each table and merges them without overwriting |
| Brokers.Broker.Refresh | cashmere/src/hub.cpp:79-91 | stores the message and refreshes the other ports; an invalid port is refused and changes nothing |
| Brokers.Broker.RefreshConnections | cashmere/src/hub.cpp:203-216 | on the objects, the loop has the effect of the value-level cascade |
| Brokers.Broker.Accept | cashmere/src/hub.cpp:63-75 | the asked side takes the table, refreshes its other ports and answers with its own table |
| Brokers.Broker.Connect | cashmere/src/hub.cpp:31-62 | the asking side end to end, on the objects: tables, both queries, both inserts with their floods and notes, and the last refresh leave clocks, stores and tables as the act of a life does; without a peer nothing happens |
| Brokers.Broker.Remember | cashmere/src/hub.cpp:100-101 | an entry's author is added to its port's table at distance 0 if it was not listed |
| Brokers.Broker.Insert | cashmere/src/hub.cpp:93-111 | on the objects, admission, save, merge, note and forwarding have the effect of the flood on stores and of its notes on tables; an unknown port is refused after the save |
| Brokers.Broker.Append | cashmere/src/brokerbase.cpp:200-203 | stamps the data given with the broker's ticked clock; an admitting journal saves exactly that entry last, the clock counts it, and the network is that of the append on values |
| Brokers.Broker.InsertBatch | cashmere/src/brokerbase.cpp:187-193 | on a port that exists, inserts one by one whatever the outcome of each, in stores and tables |
| Brokers.Broker.Query | cashmere/src/hub.cpp:133-145 | a journal answers exactly the listed entries that the clock given does not dominate; a hub asks the first other port that lists journals |
| Brokers.Broker.Exchange | cashmere/src/hub.cpp:50-60 | both answers are computed before either is inserted, with the stores and tables of the value-level exchange |
| Brokers.Broker.Search | cashmere/src/hub.cpp:220-236 | the search takes distance 0 at once, else the first port with the smallest distance |
| Brokers.Broker.Relay | cashmere/src/hub.cpp:218-243 | on the objects, data (id 0 at a journal meaning its own) is appended where the value-level relay arrives, flood and notes included, and the clock from there is returned, or nothing changes and the invalid clock is returned |

## Left out

- gRPC stub and runner, protobuf conversion and threads: each broker call is atomic and synchronous.
- Plugin loading, broker stores, URLs, random ids, command line and temporary directories: plumbing.
- `Broker::disconnect` and `Connection::disconnect`: the peer keeps a live connection, so no invariant of the pair survives.
- Reopening a file journal: its clock is not rebuilt, so all runs start from an empty directory.
- The clocks cached per connection and per table entry: written optimistically, read by none of the properties here.
- Cycles through hubs only: a hub has no admission test, so a flood does not end there; floods are between journals on any graph, or through hubs and journals on forests.
- `refresh` on cyclic graphs: it forwards without a change check and does not end there; routing is on forests.
- Batches on a port that does not exist: each entry would be saved and refused as in `Insert`; no caller in the source does this.
- `versions`, `contains`, `Data::valid` and `Connection::provides(Origin::Remote)`: small or for display.
- Machine widths: times, amounts and distances are unbounded integers, and numeric overflow on reading is not modelled.
- Stream details beyond what is printed: a `0x` prefix or a sign before a hexadecimal id, locale, and file-system errors.
- Clocks.MergeLoop: visits the other clock's components in no particular order, which the result does not depend on.
