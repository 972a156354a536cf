# What Agentify's dashboard and observer keep

A model, in Dafny, of six parts of Agentify that keep state of their own, and proofs of what they keep.

- **The ad-report outbox** (`AdReport*.dfy`). Each account has a report of its registration and one of its
  connected store. Turns of several processes share a lock: a turn settles all waiting store reports, posts
  one due report, records the answer and holds the lock until the spacing has passed. `AdReportModel`,
  `AdReportSettling` and `AdReportTurns` say what one statement and one turn do; `AdReportInvariants` to
  `AdReportMeasure` prove what every run keeps; `AdReportRecords` says what each answer and each
  settling leaves in a row, column by column; `AdReportHope` proves which waiting reports can still become due,
  `AdReportRollback` what a rolled back post costs, and `AdReportHeard` when it can cost a second post for one
  merchant, with two runs in `AdReportTales`. `AdReportStatement` is the settling statement as
  relations, `AdReportOutbox` the table changed in place, statement by statement, and `AdReportLoop` one
  process's rounds; each is proved to be the specification.
- **Long lists and their cursors** (`Cursor`, `CursorTexts`, `TextUnits`, `Listing*.dfy`, `Whitespace`). Places printed into
  addresses and read back, windows of fifty rows cut around them, and walks along the addresses, over a list
  that stands still and over one that rows arrive in.
- **The browser observer's run** (`NetworkPolicy`, `NetworkRequests`, `Representatives`, `Robots`,
  `ObservationRun`, `RunBudget`, `RunCounters`). Which requests are let past and which pages opened, what the final status
  means, and what the budgets hold under every interleaving of request handlers.
- **What a page says as written** (`PageTree`, `RawText`, `Metadata`, `StructuredFacts`). Readers driven by
  a tokenizer's events, with a stack of what hides, proved to be walks of the page's tree.
- **The firewall rules of the test shop** (`Hairpin`, `HairpinTable`, `HairpinPackets`). One chain and one jump,
  edited by small commands any of which may fail, or succeed unheard, and what packets then meet.
- **The memory of presses** (`PressReads`). A bounded, insertion-ordered map, proved against the history.

## Where the code does less than its words

These are properties the documentation states and the code has only in part. Each has its exact condition
and an input that shows it.

- *One store report a merchant.* The table keeps it in every run. The tracker need not: a turn that makes a
  store report due, posts it and cannot record it leaves the row waiting, and the tracker may then be told of
  another account of the merchant. `OnRecordUnlessForgotten` says which turns forget their post; after one,
  `ForgottenIsHeardAgainExactly` says exactly when another account can still be told of, read off the table it
  leaves. `TwoStoresPostedForOneMerchant` is a run that breaks the promise, `ForgottenForNothing` one with such
  a turn after which nothing can.
- *A waiting report that can never become due is closed.* `HopeIsExact` says which can never. Settling leaves
  one waiting exactly where `HopelessIsClosedUnless` says, and two inputs show the two cases: one holds its
  merchant's place while reporting is off (`SwitchedOffKeepsADeadClick`); one has no card and no place, on or
  off, and is what a reporting turn meets when it settles after a day's outage, before it gives the
  registration up (`NoCardKeepsADeadClick`). The other way round, `HopefulLapsesOnlyBehindAnother` says exactly
  when one that still could become due lapses, and `LapsesWithHope` shows one.
- *A run's requests.* The first fetch of a robots.txt is counted and not checked against the run's limit.
  `WhatOverruns` says exactly which step makes a fetch too many, `OnlyALookupOverreserves` the same of fetches
  let past the count; `TheFirstRobotsFetchIsUnchecked` is a run that does, with no flag set.
- *A completed run observed what it was asked to.* More pages may be asked for than may be opened; those past
  the number are dropped unsaid. `Observe` has the condition, `CutPagesGoUnsaid` the input.
- *Removing the firewall rules.* A chain whose listing fails is reported as already absent: the condition is
  in `Remove`, the input `AbsentThoughThere`.
- *Hidden text.* An element that hides and is never closed, such as a `style` that closes itself inside an
  `svg`, hides all that follows: `PartsAreOfTheTree` says exactly what is counted, `CountedWhereClosed` that what
  follows a page is counted exactly where all that hides in it is closed; `ASelfClosedStyleHidesAll` shows one.
- *A place prints without a look at its identifier*, so the round trip holds exactly for identifiers a cursor
  can carry: `PrintedReadsBack`.

## What is assumed

A wait lasts no less than it says and no process is killed in the middle of a turn. What other connections
commit may come at every point where a turn waits, and which rows a turn finds locked and skips is arbitrary
too. Those are rows of accounts whose deletion is under way, which on the live channel name no merchant: runs
that skip the row of one that does, as `HopeIsExact` and `ForgottenIsHeardAgainExactly` allow, stand for a
deletion on the test channel that is then taken back. `DueUnlessKeptFromIt` is of any given locks. Addresses are
records the URL library parsed, which print and parse back as themselves (`Faithful`); the locale's order is a
total preorder (`Collates`). What fetches, DNS, robots.txt and JSON parsing, page extraction and letter case
answer is arbitrary. A tokenizer gives raw content between the tags of its own element only (`Tokens`). The
kernel prints a firewall rule as it was given, refuses a jump to a chain that is not there and keeps a chain
that is referred to; a network written `/32` holds its one address (`SingleHosts`), the first rule that decides on
a packet is the last it meets, and what the rules of others decide is arbitrary. Rows of a list have distinct places, whole-number keys within reach and identifiers a
cursor carries where a walk is concerned (`Placed`); nothing else is asked of them. The order of rows is
computed by insertion; with distinct places every sort gives the same one.

## Model

| member | source | states |
|---|---|---|
| AdReportSettling.DistinctOnKeepsFirsts | apps/dashboard/src/ad-reports.ts:178-194 | a line survives `distinct on` exactly where it is there and comes before every other line of its merchant |
| AdReportSettling.ChosenIsTheHolder | apps/dashboard/src/ad-reports.ts:178-194 | of any ordered join, deduplicated by merchant, just each merchant's least eligible registration, by time and then account, is left |
| AdReportStatement.ChosenAreTheHolders | apps/dashboard/src/ad-reports.ts:155-194 | the statement's own chosen relation, built from the tables by joins, order and distinct, is the accounts that hold their merchant's place, with their lines |
| AdReportStatement.FatesAreDecided | apps/dashboard/src/ad-reports.ts:195-220 | its last relation, left joins and cases over the waiting lines, pairs every unskipped waiting report with the one fate the simple rule gives it, and nothing else |
| AdReportStatement.SettlingUpdate | apps/dashboard/src/ad-reports.ts:155-235 | the statement as written, relation by relation and its update, writes exactly what the simple rule writes |
| AdReportRecords.ReasonsAreOfTheTable | apps/dashboard/src/ad-reports.ts:200-219 | a waiting report lapses for each of the five reasons exactly where the table gives it: the registration's state, the merchant's cards before two moments, the thirty days, and which report of the merchant comes first |
| AdReportRecords.TheTableDecides | apps/dashboard/src/ad-reports.ts:221-235 | and every column of the row it becomes is as that says: its state, reason, date, next try, click and the moment it settled |
| AdReportHope.SettlingWeighsHope | apps/dashboard/src/ad-reports.ts:140-153 | each fate against what the future can still bring: due only with hope, late only without, lapsed only without hope or kept from its place by another, left with hope unless its times ran out |
| AdReportHope.HopelessIsClosedUnless | apps/dashboard/src/ad-reports.ts:195-220 | a hopeless report is left waiting exactly in the cases `LeftWithoutHope` reads off the table: its times ran out, its registration not failed and under 30 days old, and either it holds its place and is not made due, or no card dates it in time |
| AdReportHope.HopefulLapsesOnlyBehindAnother | apps/dashboard/src/ad-reports.ts:209-212 | a report with hope lapses exactly where a sooner eligible registration of its merchant keeps it from its place |
| AdReportHope.SettlingClosesTheHopeless | apps/dashboard/src/ad-reports.ts:195-235 | over the whole table: what is hopeless when the statement runs is closed by it, just those cases excepted |
| AdReportHope.HopeIsExact | apps/dashboard/src/ad-reports.ts:140-153 | a waiting report can become due in some run from now on exactly where it is not hopeless, a condition read off the present table |
| AdReportHope.DoomIsForever | apps/dashboard/src/ad-reports.ts:140-153 | a report once hopeless, or closed untried, is never posted nor due again, whatever any run brings |
| AdReportHope.LeftWaitingAsItWas | apps/dashboard/src/ad-reports.ts:195-213 | a report the settling leaves waiting is neither more nor less hopeless for it |
| AdReportHope.SwitchedOffKeepsADeadClick | apps/dashboard/src/ad-reports.ts:200-208 | a table where the promise that a hopeless report lapses fails: switched off, one past its card's day stays, with its click |
| AdReportHope.NoCardKeepsADeadClick | apps/dashboard/src/ad-reports.ts:200-208 | another, reporting on or off: an account without a merchant, so without a card, whose registration is pending past its day, holds no place and is left, its click kept |
| AdReportHope.DueUnlessKeptFromIt | apps/dashboard/src/ad-reports.ts:195-220 | with its registration delivered and its card there, a report is made due exactly where it has hope and nothing the settling reads keeps its place, whichever rows that settling had to skip |
| AdReportHope.LapsesWithHope | apps/dashboard/src/ad-reports.ts:209-212 | a table where a report lapses as another account's although that account's registration may still fail |
| AdReportTurns.FirstDueExists | apps/dashboard/src/ad-reports.ts:299-312 | where any row is due, one is first by its next try, then account, then event |
| AdReportInvariants.EightWaitsOutlastADay | apps/dashboard/src/ad-reports.ts:49-54 | the first n waits reach a day exactly where n is eight or more |
| AdReportInvariants.SettlingKeepsRows | apps/dashboard/src/ad-reports.ts:221-235 | the statement leaves every row within the rules its table checks |
| AdReportInvariants.SettlingKeepsStores | apps/dashboard/src/ad-reports.ts:178-235 | after the statement each store report past waiting and lapsed is earned, and each merchant has one at most |
| AdReportInvariants.AnswerMovesOn | apps/dashboard/src/ad-reports.ts:349-359 | whatever the tracker answers, the recorded row obeys the table, and a retry is scheduled inside its time and no sooner than its waits |
| AdReportRecords.TheAnswerDecides | apps/dashboard/src/ad-reports.ts:118-150 | a posted row ends delivered exactly on status 200, refused exactly on one that is neither that, nor 429, nor 500 or more; else it waits a minute, five, half an hour, two hours or six, by its tries, or is given up where that is past its day or its thirty; and it records what it was answered |
| AdReportRecords.TooLateIsGivenUp | apps/dashboard/src/ad-reports.ts:335-338 | a turn past a row's time posts nothing and gives it up with its earlier outcome |
| AdReportRecords.HowTurnsEnd | apps/dashboard/src/ad-reports.ts:293-313 | a turn throws exactly where something in it failed, and else took a row exactly where one was due |
| AdReportRuns.ReportTurnKeeps | apps/dashboard/src/ad-reports.ts:293-374 | one whole reporting turn, however it ends, keeps every invariant of the table, of the trace of posts and of the lock, and adds at most its one post |
| AdReportRuns.FailedKeeps | apps/dashboard/src/ad-reports.ts:343-366 | a turn whose recording fails keeps them too, its post in the trace and none of its writes |
| AdReportTheorems.ExpireTurnKeeps | apps/dashboard/src/ad-reports.ts:383-401 | one turn with reporting switched off keeps them and posts nothing |
| AdReportTheorems.StepKeeps | apps/dashboard/src/ad-reports.ts:293-401 | every step keeps them: a registration, a late merchant, a card, time, a deletion, a turn of either kind |
| AdReportTheorems.EveryRunKeeps | apps/dashboard/src/ad-reports.ts:415-459 | they hold in every state any run reaches |
| AdReportTheorems.RunFollows | apps/dashboard/src/ad-reports.ts:293-401 | later states follow earlier ones: rows of attached accounts stay, final ones unchanged, and merchants and first cards stay |
| AdReportTheorems.OneStoreReportAMerchant | apps/dashboard/src/ad-reports.ts:194-246 | over a whole run, one account of each merchant at most has a store report that was ever anything but waiting or lapsed |
| AdReportTheorems.UnattachedStoresAreUnsent | apps/dashboard/src/ad-reports.ts:178-194 | an account that names no merchant has its store report waiting or lapsed |
| AdReportTheorems.PostsAreSpaced | apps/dashboard/src/ad-reports.ts:340-366 | any two posts of a run begin 1,100 ms apart, and whenever no turn runs the last lies that far back |
| AdReportTheorems.PendingIsInTime | apps/dashboard/src/ad-reports.ts:335-358 | a pending row has seven tries behind it at most, its next one inside both windows and no sooner than the sum of its waits |
| AdReportTheorems.PostsAreInTime | apps/dashboard/src/ad-reports.ts:335-348 | every post was checked no sooner than what it tells of happened, and before both of its windows ended |
| AdReportTheorems.ClicksAndFinality | apps/dashboard/src/schema.ts:284-311 | a row holds its click exactly while open, and a final row of an attached account never changes |
| AdReportErasure.SwitchedOffErases | apps/dashboard/src/ad-reports.ts:383-393 | after a switched-off turn no row whose time was up and that was not skipped holds a click, a store report whose registration fell in that turn included; pending rows with time left are untouched |
| AdReportErasure.IdleTurnsLeaveNoneOverdue | apps/dashboard/src/ad-reports.ts:293-313 | nor does a reporting turn that skipped nothing and found nothing due leave any row past its time with a click |
| AdReportErasure.StorePostRestsOnDelivery | apps/dashboard/src/ad-reports.ts:198-203 | the turn that posts a store report began with that account's registration delivered |
| AdReportErasure.StorePostsFollowDeliveries | apps/dashboard/src/ad-reports.ts:198-235 | every store post of a run carries the time of the first card its merchant ever had, less than 30 days after the account registered, and an earlier state of the run held that registration's delivery |
| AdReportMeasure.MeasureTakesOut | apps/dashboard/src/ad-reports.ts:293-374 | the measure of a table is the sum of its rows' weights, whichever is taken first |
| AdReportMeasure.ReportTurnFalls | apps/dashboard/src/ad-reports.ts:293-374 | a turn that took a row brings the measure down by one at least, whatever else it does |
| AdReportMeasure.StepFalls | apps/dashboard/src/ad-reports.ts:293-401 | no step but a registration raises the measure |
| AdReportMeasure.TheLoopComesToRest | apps/dashboard/src/ad-reports.ts:449-459 | a run takes ten turns a row, and nineteen a registration, at most, before it only idles |
| AdReportRollback.OnRecordUnlessForgotten | apps/dashboard/src/ad-reports.ts:289-292 | a step leaves every post on record exactly where it is not a turn that promoted a store report, posted it and rolled back |
| AdReportRollback.RunsStayOnRecord | apps/dashboard/src/ad-reports.ts:289-292 | a run without such a turn leaves every post on record |
| AdReportRollback.OneStorePostedAMerchant | apps/dashboard/src/ad-reports.ts:140-153 | in a run without such a turn the tracker hears of each merchant's store for one account only; what can follow such a turn is the next rows' |
| AdReportHeard.HeardOfAnotherExactly | apps/dashboard/src/ad-reports.ts:140-153 | told of a merchant's store for one account only, the tracker can in some run hear of it for another exactly where the table shows a candidate: one due in its time, or one waiting, of no merchant or this one, with hope once attached |
| AdReportHeard.ForgottenIsHeardAgainExactly | apps/dashboard/src/ad-reports.ts:1-6 | a run keeps the promise up to its first turn that forgets its post; from there it can be broken for that merchant exactly where the table left shows another candidate |
| AdReportHeard.OnRecordNobodyElse | apps/dashboard/src/ad-reports.ts:189-193 | while the account told of is on record, no other is a candidate |
| AdReportHeard.StaysOut | apps/dashboard/src/ad-reports.ts:293-401 | no step makes a candidate of what is none |
| AdReportTales.TheFirstCanBeTold | apps/dashboard/src/ad-reports.ts:360-366 | the table such a turn leaves in the run of the next row shows a candidate, so another can be told of |
| AdReportRollback.TwoStoresPostedForOneMerchant | apps/dashboard/src/ad-reports.ts:360-366 | a whole run with one such turn in which it hears of two |
| AdReportTales.ForgottenForNothing | apps/dashboard/src/ad-reports.ts:360-366 | a whole run with one such turn after which no run tells it of another |
| AdReportOutbox.Outbox.SettleWaiting | apps/dashboard/src/ad-reports.ts:177-247 | run as relations over what the transaction sees, and held back until it commits: each waiting report ends as the table read says, column by column, all other rows as they were, every rule of the table kept, and the hopeless closed but for the stated cases |
| AdReportOutbox.Outbox.TakeDue | apps/dashboard/src/ad-reports.ts:299-313 | takes the first due row that is not skipped, and none only where none is due |
| AdReportOutbox.Outbox.HoldSpacing | apps/dashboard/src/ad-reports.ts:360-366 | holds the lock until the spacing has passed |
| AdReportOutbox.Outbox.ReportOnce | apps/dashboard/src/ad-reports.ts:293-374 | the transaction, commit or rollback, leaves what the turn's specification says and reports whether it took a row; where it posted and committed, the row holds the tracker's answer |
| AdReportOutbox.Outbox.ExpireOnce | apps/dashboard/src/ad-reports.ts:383-401 | the same of the switched-off turn |
| AdReportOutbox.Outbox.Loops | apps/dashboard/src/ad-reports.ts:415-459 | any steps of all processes end in the run's state with every invariant, the turns that took a report counted and within the bound |
| AdReportOutbox.Outbox.Process | apps/dashboard/src/ad-reports.ts:415-468 | one process's loop among the steps of all others: it pauses after exactly the turns that took no report, failed ones included, unless stopped meanwhile; begins none once stopped; keeps every invariant; and the turns it does not pause after are bounded |
| Cursor.PrintedReadsBack | apps/dashboard/src/cursor.ts:35-51 | a place that prints reads back as itself exactly where its identifier is one a cursor carries, dots included; any other reads as no place |
| Cursor.ReadPrintsAgain | apps/dashboard/src/cursor.ts:35-51 | whatever text reads as a place, that place prints, and reads back as itself |
| CursorTexts.WhatReadsAsAPlace | apps/dashboard/src/cursor.ts:20-42 | a text reads as a place exactly where it is that many numerals, one to sixteen digits and perhaps a minus, each within 8.64e15 and with a dot behind it, and then a name of 1 to 256 UTF-16 units without control characters |
| CursorTexts.WhatAPlacePrints | apps/dashboard/src/cursor.ts:48-51 | a place prints exactly where its keys are whole numbers within that reach, and then as those numbers without idle zeros and its name |
| Cursor.OnceWritten | apps/dashboard/src/cursor.ts:67-90 | a cursor written into fields reads back, one that cannot print as the first page |
| Cursor.SplitOfJoin | apps/dashboard/src/cursor.ts:36-38 | parts without dots, joined before any text, split off again whatever dots the text holds |
| Cursor.DigitsReadBack | apps/dashboard/src/cursor.ts:24-37 | a whole number within n digits prints in n at most and reads back |
| Cursor.PlacesAreOrdered | apps/dashboard/src/cursor.ts:93-99 | the list order is a strict total order on places of one count of keys |
| Cursor.RisesWhereItComesFirst | apps/dashboard/src/cursor.ts:93-99 | one place comes before another exactly where, at the first key in which they differ, its own comes first, or all agree and its identifier does |
| TextUnits.BelowIsTotal | apps/dashboard/src/cursor.ts:93-99 | the language's order of texts, by UTF-16 unit, is a strict total order of them |
| ListingPages.CutStandsWhereAsked | apps/dashboard/src/listing.ts:150-173 | the page cut for any place, of a listed row or none: what stands behind the place is behind its start, or what stands ahead is ahead of its end, fifty rows or to the list's edge; with nothing there, the last page or the first |
| ListingAddresses.AskedIsReadable | apps/dashboard/src/listing.ts:106-116 | whatever the query, what is read of it is one an address can ask for |
| ListingAddresses.WhatIsAsked | apps/dashboard/src/listing.ts:106-116 | what a query asks: its words trimmed and cut at two hundred characters, and the segment named once if there is such a one, else the first |
| ListingAddresses.FieldsNameOnce | apps/dashboard/src/listing.ts:118-124 | an address names each thing once at most |
| ListingAddresses.WrittenReadsBack | apps/dashboard/src/listing.ts:106-129 | an address reads back as what it was written for, a place it cannot carry left out |
| ListingAddresses.ShownOfTheSegment | apps/dashboard/src/listing.ts:206-211 | the rows shown are exactly those the search and the segment asked for let through, the first of its key, or the first of all where none has it |
| ListingPages.OrderIsByPlace | apps/dashboard/src/listing.ts:205-211 | a row stands before another exactly where its keys, then its identifier, come first |
| ListingPages.ThePageSaysWhereItIs | apps/dashboard/src/listing.ts:233-260 | what a page says of itself: its rows, their range, and whether there is a way on and a way back |
| ListingAddresses.SortedKeeps | apps/dashboard/src/listing.ts:209-211 | sorting loses no row and adds none |
| ListingAddresses.PlaceLeadsBack | apps/dashboard/src/listing.ts:137-142 | the fields a listing hands its forms lead back to the address of the page drawn |
| ListingPages.ShownInOrder | apps/dashboard/src/listing.ts:205-211 | where places are distinct the rows shown stand strictly in the list's order |
| ListingPages.EveryCutIsAPage | apps/dashboard/src/listing.ts:150-173 | every page is fifty rows from its start or to the list's end, or at most fifty from the list's start, and empty only with the list |
| ListingPages.CutAtARow | apps/dashboard/src/listing.ts:150-173 | a page after a row begins right behind it; one before a row ends right at it |
| ListingPages.DrawnAgain | apps/dashboard/src/listing.ts:158-167 | a drawn page's own cursor, clamped or not, draws the same rows |
| ListingPages.NextLeadsBack | apps/dashboard/src/listing.ts:253-259 | as ranges, the page before the next page is the page |
| ListingPages.PreviousLeadsOn | apps/dashboard/src/listing.ts:253-259 | as ranges, the page after the previous page is the page |
| ListingWalks.OnAndBack | apps/dashboard/src/listing.ts:253-259 | following a drawn page's next address, then that page's previous one, draws its rows again |
| ListingWalks.BackAndOn | apps/dashboard/src/listing.ts:253-259 | the same the other way round |
| ListingWalks.WayOnLeads | apps/dashboard/src/listing.ts:257-259 | a next address read back and drawn, of the list as it then is, is the page behind the last row drawn; there is one exactly while rows are left |
| ListingArrivals.AWalkDrawsTheList | apps/dashboard/src/listing.ts:180-264 | over a list that stands still a walk draws every row once, in order, in ceil(n/50) pages |
| ListingArrivals.WalkDrawsTheSlices | apps/dashboard/src/listing.ts:150-173 | its n-th page is the n-th fifty rows |
| ListingArrivals.EachPageIsInOrder | apps/dashboard/src/listing.ts:205-211 | each page of a walk is in order, fifty rows at most, none twice |
| ListingArrivals.NoRowIsDrawnTwice | apps/dashboard/src/listing.ts:11-12 | whatever rows arrive between clicks, a later page draws only what stands after every earlier one |
| ListingArrivals.NoRowIsSkipped | apps/dashboard/src/listing.ts:11-12 | a row there at a click and ahead of what was drawn has been drawn by the page that has no way on; from the first page, every row there was |
| Hairpin.ValidatesTheAccepted | deploy/ansible/agentify-test-woo-hairpin.py:211-235 | the check of both listings passes exactly where the chain holds only rules of private networks to the two addresses and only the jump mentions the chain |
| Hairpin.VerifiesTheAssigned | deploy/ansible/agentify-test-woo-hairpin.py:308-323 | the compared listings match exactly where the chain is the assigned one and one jump stands |
| Hairpin.JumpingTwice | deploy/ansible/agentify-test-woo-hairpin.py:291-305 | reconciling twice is reconciling once, and keeps the rules of others in order |
| HairpinTable.NatTable.ExistingRules | deploy/ansible/agentify-test-woo-hairpin.py:242-283 | what the listings read as, an unlistable chain as absent, and when they are refused |
| HairpinTable.NatTable.DeleteOwnedJumps | deploy/ansible/agentify-test-woo-hairpin.py:286-288 | ends; the rules of others stay in order; with no command failing no jump is left |
| HairpinTable.NatTable.Verify | deploy/ansible/agentify-test-woo-hairpin.py:308-323 | changes nothing, and accepts exactly the assigned state, both listings had |
| HairpinTable.NatTable.Reconcile | deploy/ansible/agentify-test-woo-hairpin.py:291-305 | whatever command fails: the rules of others stand in order, what was acceptable still is, what was not is untouched; success means the assigned rules and one jump ahead of all, and that packets fare by them as `Serves` says; without failures it succeeds |
| HairpinTable.NatTable.Remove | deploy/ansible/agentify-test-woo-hairpin.py:326-338 | the same; a reported removal leaves neither chain nor jump, and packets to the rules of others alone; exactly when it reports the chain absent, a chain whose listing failed included |
| HairpinTable.NatTable.ReconcileAfter | deploy/ansible/agentify-test-woo-hairpin.py:286-338 | after any runs stopped at any commands, one run without failures reaches the one target state and its effect on packets, exactly where the table was acceptable at first |
| HairpinTable.AbsentThoughThere | deploy/ansible/agentify-test-woo-hairpin.py:326-331 | a chain in place reported absent |
| HairpinPackets.AssignedServes | deploy/ansible/agentify-test-woo-hairpin.py:194-208 | read as the kernel reads them, the assigned rules send a TCP packet from an assigned subnet to the public address and port 443 on to the ingress, port 443, and touch no other packet; what a rule of others took before, it takes as before unless it is one of those |
| HairpinPackets.AbsentLeavesAlone | deploy/ansible/agentify-test-woo-hairpin.py:326-338 | with the tool's rules gone every packet fares as the rules of others have it |
| PressReads.PressMemory.Press | apps/dashboard/src/press-reads.ts:33-39 | a thousand entries at most, the cookie just pressed among them |
| PressReads.PressMemory.IsPressRead | apps/dashboard/src/press-reads.ts:40-45 | true only of the cookie's latest press, of that page and ten seconds old at most; and then, unless a thousand other cookies were pressed since its wait began |
| PressReads.ReplayKeeps | apps/dashboard/src/press-reads.ts:30-47 | after any events, a thousand entries at most, each cookie once |
| PressReads.RememberedIsLatest | apps/dashboard/src/press-reads.ts:33-44 | what is remembered of a cookie is its latest event |
| PressReads.KeptUnlessCrowdedOut | apps/dashboard/src/press-reads.ts:35-38 | a cookie that waits is remembered unless a thousand others were pressed since it began to |
| PressReads.AThousandForget | apps/dashboard/src/press-reads.ts:35-38 | and a thousand newcomers do push it out |
| PressReads.ForgottenExactly | apps/dashboard/src/press-reads.ts:33-39 | a cookie's wait is forgotten exactly where some later press of another met a full memory with that wait its oldest |
| PressReads.AnswersAsUnbounded | apps/dashboard/src/press-reads.ts:30-47 | a read is told it is a press's own exactly where the whole history says so and the wait was not pushed out, which takes a thousand other cookies since |
| PressReads.OwnReadsFollowTheirPress | apps/dashboard/src/press-reads.ts:40-45 | a read told it is a press's own follows its press with nothing of that cookie between |
| PressReads.OncePerPress | apps/dashboard/src/press-reads.ts:40-45 | no press is answered twice |
| NetworkPolicy.NavigationStaysOnDomain | apps/browser-observer-actor/src/network-policy.ts:67-124 | an allowed navigation, however asked for, leads to the declared domain over the web's own protocols, without credentials, odd ports or local names |
| NetworkPolicy.RedirectStaysSafe | apps/browser-observer-actor/src/network-policy.ts:126-148 | a redirect followed stays there and never leaves https for http |
| NetworkPolicy.TargetsAreTaken | apps/browser-observer-actor/src/network-policy.ts:160-176 | pages asked for are taken exactly where each passes the inspection and names no query and no fragment |
| NetworkPolicy.TargetIsSound | apps/browser-observer-actor/src/network-policy.ts:150-182 | what is taken: the canonical page first, each observable, no two alike |
| NetworkRequests.EveryRequestIsJudged | apps/browser-observer-actor/src/network-policy.ts:67-124 | a request, navigation or not, is allowed exactly where it passes ten checks written out each by itself: method, address, protocol, credentials, port, name, IP address, and for navigations domain and downgrade; one refused is told of the first it fails |
| NetworkRequests.RedirectsAreJudged | apps/browser-observer-actor/src/network-policy.ts:126-148 | a redirect is followed exactly where its target may be navigated to and does not leave https |
| NetworkRequests.WhatIsAskedForIsJudged | apps/browser-observer-actor/src/network-policy.ts:150-182 | a run's request is rejected for its domain, else for the first page at fault, the first page told apart, else for two pages alike; otherwise all pages are taken, in order |
| Representatives.SelectRepresentativeUrls | apps/browser-observer-actor/src/representative-pages.ts:20-65 | two at most; each what the last link of its key stands for; none left out for one behind it, and none while there is room |
| Representatives.OrderIsTotal | apps/browser-observer-actor/src/representative-pages.ts:58-63 | rank, then the locale's order, is a total order |
| Representatives.HintedAndLongerFirst | apps/browser-observer-actor/src/representative-pages.ts:15-18 | hinted comes before unhinted of as many parts, longer before shorter, and a hint outweighs nine parts more and no ten; level in that, the locale decides |
| Representatives.PartsAreCounted | apps/browser-observer-actor/src/representative-pages.ts:15-18 | the parts of a path are what stands between its slashes and is not empty |
| Representatives.KeySaysThePage | apps/browser-observer-actor/src/representative-pages.ts:12-13 | the key of a page is its protocol, host, port and path, closing slashes aside |
| Representatives.CandidatesAreJudged | apps/browser-observer-actor/src/representative-pages.ts:30-56 | a link stands for a page exactly where it reads without query and fragment, keeps https, may be navigated to, and is neither the root nor the page it stands on but content |
| Representatives.ChosenAreObservable | apps/browser-observer-actor/src/representative-pages.ts:30-56 | each chosen page is observable, is not the page it was found on, and keeps its https |
| Robots.LookUp | apps/browser-observer-actor/src/runner.ts:210-262 | three fetches at most, each where a safe redirect leads; what is kept is the final answer's verdict, or blocked where anything went wrong |
| Robots.WhatALookupFetches | apps/browser-observer-actor/src/runner.ts:210-248 | the origin's own robots.txt and nothing else of it, then where each redirect, 301 to 303, 307 or 308, safely leads, three fetches at most; where it ends on a redirect or without an answer it blocks |
| Robots.HopsStayOnDomain | apps/browser-observer-actor/src/runner.ts:238-242 | every fetch of a lookup lies on the declared domain, and no later one leaves https |
| Robots.AllowedOnAnAnswer | apps/browser-observer-actor/src/runner.ts:249-267 | a page is let in exactly where the last answer, no redirect, is 404 or 410, or 200 to 299 with sound rules that do not say no to search and allow its path and query |
| Robots.RobotsCache.Allows | apps/browser-observer-actor/src/runner.ts:202-268 | an origin is looked up once, and the answer kept decides |
| Robots.RobotsCache.LookUpBeside | apps/browser-observer-actor/src/runner.ts:202-262 | a lookup that overlaps another of its origin fetches again, and the last to end is the one kept; other origins are untouched |
| ObservationRun.Run.constructor | apps/browser-observer-actor/src/runner.ts:583-594 | a run starts fresh from the pages the target check let through, no two alike, cut to as many as it may open |
| ObservationRun.LetInOnAnAnswer | apps/browser-observer-actor/src/runner.ts:202-268 | every page a run lets in rests on one of the world's lookups of its origin, whether the run's own or one of a page's request handlers: safely followed, and ended without a file or with sound rules that permit the page |
| ObservationRun.Run.AdmitRequested | apps/browser-observer-actor/src/runner.ts:606-630 | each requested page is let in on such an answer or turned away on one, none twice; where the first is turned away the run is blocked |
| ObservationRun.Run.AdmitRepresentatives | apps/browser-observer-actor/src/runner.ts:658-680 | the first page's choice, the best of its links, is let in while there is room, none twice, each weighed |
| ObservationRun.Run.ObservePages | apps/browser-observer-actor/src/runner.ts:645-686 | ends although the list grows as it is walked; where nothing was missed, used up or cut short, every page let in was observed |
| ObservationRun.Run.Observe | apps/browser-observer-actor/src/runner.ts:605-696 | over any answers of the world, `completed` exactly where every page let in was observed and none turned away, missed, challenged, over budget or cut short; then all pages asked for are among them exactly where they are no more than the run may open, and every page the first one chose unless no room was left |
| ObservationRun.CutPagesGoUnsaid | apps/browser-observer-actor/src/runner.ts:583-594 | a run asked for two pages and allowed one: `completed`, the second neither observed nor counted |
| RunBudget.EveryRunIsWithin | apps/browser-observer-actor/src/runner.ts:148-159 | over every interleaving: bytes within the limit and equal to what was charged, each page's requests and all pages' within theirs, three fetches a lookup |
| RunBudget.FetchesAreBounded | apps/browser-observer-actor/src/runner.ts:210-248 | the fetches made are no more than those reserved, and those outnumber the run's limit by the robots lookups at most; while the count is within the limit the fetches are |
| RunBudget.WhatOverruns | apps/browser-observer-actor/src/runner.ts:212-218 | the step that makes one fetch too many is, with the limit made, exactly a robots lookup's first fetch, or a live page's fetch let past the count before |
| RunBudget.OnlyALookupOverreserves | apps/browser-observer-actor/src/runner.ts:212-218 | of reservations, fetches made or let past the count, only a robots lookup's start with the limit reserved goes past the limit |
| RunBudget.FlagsTellOfRefusals | apps/browser-observer-actor/src/runner.ts:148-159 | each of the two flags is set exactly where some event of the run was refused for its budget |
| RunBudget.WhatEndsALookup | apps/browser-observer-actor/src/runner.ts:210-258 | a lookup ends exactly at its end, at a redirect unsafe, third or over the count, or at bytes past 512 KiB or the run's limit |
| RunBudget.WhoWaits | apps/browser-observer-actor/src/runner.ts:378-486 | a request waits from when both counts let it past until it fetches or is refused |
| RunBudget.EndedLookupsStay | apps/browser-observer-actor/src/runner.ts:210-258 | and in every run that goes on fetches and is charged nothing more |
| RunBudget.EndedPagesStay | apps/browser-observer-actor/src/runner.ts:378-486 | nor does a page fetch anything once it ended or its bytes no longer fit |
| RunBudget.TheFirstRobotsFetchIsUnchecked | apps/browser-observer-actor/src/runner.ts:212-218 | a run with one fetch too many and no budget reported as used up |
| RunCounters.Counters.Handle | apps/browser-observer-actor/src/runner.ts:378-486 | one handler's work moves the counters as the event's step, keeps every budget, and sets a flag exactly where it refuses for that budget |
| RunCounters.Counters.HandleAll | apps/browser-observer-actor/src/runner.ts:378-486 | whatever the handlers do in whatever order ends as the run of those events, within every budget |
| PageTree.EveryPageIsATree | packages/scanner/src/html.ts:189-315 | whatever sequence of tags, texts and raw contents a page is read as, stray and misnested end tags included, is the events of one of the trees spoken of here |
| PageTree.EveryTreeIsAPage | packages/scanner/src/html.ts:189-315 | and the events of every tree are such a sequence |
| PageTree.TokensByPlace | packages/scanner/src/html.ts:189-315 | such a sequence is one where each raw content stands right between the tags of its own element |
| PageTree.WhatIsLeftOpen | apps/browser-observer-actor/src/browser-signals.ts:51-58 | reading a page leaves the stack as it was exactly where every element that hides is closed |
| PageTree.LiveIsOfTheTree | apps/browser-observer-actor/src/browser-signals.ts:151-172 | what a reader with a stack meets is what a walk of the tree without hidden subtrees meets |
| RawText.TextReader.Read | apps/browser-observer-actor/src/browser-signals.ts:47-63 | each callback keeps the parts and the stack those of the events read |
| RawText.WhatOneEventAdds | apps/browser-observer-actor/src/browser-signals.ts:47-63 | a tag adds a space; text, and the raw content of a title or a textarea, is added where nothing that hides is open |
| RawText.RawTextCharacterCount | apps/browser-observer-actor/src/browser-signals.ts:44-65 | the count is the length of the tree's text, scripts, styles, noscripts and templates hiding theirs |
| RawText.PartsAreOfTheTree | apps/browser-observer-actor/src/browser-signals.ts:44-65 | for every page, closed or not, the parts are the text of the tree, runs of white space aside |
| RawText.CountedWhereClosed | apps/browser-observer-actor/src/browser-signals.ts:51-58 | what stands behind a page is counted exactly where all that hides in the page is closed, and otherwise not at all |
| RawText.HiddenAreGone | apps/browser-observer-actor/src/browser-signals.ts:42-65 | where all that hides is closed, that is the text with every hidden subtree gone |
| RawText.ASelfClosedStyleHidesAll | apps/browser-observer-actor/src/browser-signals.ts:51-58 | a style closed by its own tag inside an svg hides all text behind it |
| Whitespace.CollapseSplits | apps/browser-observer-actor/src/browser-signals.ts:64-64 | collapsing white space part by part is collapsing it at once |
| Whitespace.TrimTakesTheEnds | apps/browser-observer-actor/src/browser-signals.ts:64-64 | trimming takes the white space at both ends and nothing else |
| Metadata.SheetDeclares | apps/browser-observer-actor/src/browser-signals.ts:151-181 | event by event the reader comes to hold the first canonical address, the languages among the first 2,000 links, and the first 50 scripts |
| Metadata.WhatIsDeclared | apps/browser-observer-actor/src/browser-signals.ts:151-181 | place by place: the first canonical address that can be read and the number of other languages among the first 2,000 links, and the first 50 scripts of linked data in order |
| Metadata.MetadataReader.Read | apps/browser-observer-actor/src/browser-signals.ts:150-182 | each callback keeps the fields those of the events met outside templates and noscripts |
| Metadata.ExtractRawMetadata | apps/browser-observer-actor/src/browser-signals.ts:144-189 | what is told of a page, its structured data summed up, is what the tree declares with its template and noscript subtrees gone |
| StructuredFacts.CollectStructuredFacts | apps/browser-observer-actor/src/browser-signals.ts:73-114 | the walk adds to the record all that the value's parts state together |
| StructuredFacts.GatheredExactly | apps/browser-observer-actor/src/browser-signals.ts:84-113 | a fact is gathered exactly where an entry reached in 20 steps at most, through 200 items and 300 keys, states it by its key and text: a code of three letters, an availability less its vocabulary, a way to reach the shop, or its hours |
| StructuredFacts.PricesCountedExactly | apps/browser-observer-actor/src/browser-signals.ts:84-113 | the price count is the number of entries so reached that state a price: a number, or a text that is not blank |
| StructuredFacts.ScriptsStateTogether | apps/browser-observer-actor/src/browser-signals.ts:116-132 | the scripts of a page state what each of them states that is no longer than 524,288 units and can be read |
| StructuredFacts.FirstNames | apps/browser-observer-actor/src/browser-signals.ts:134-141 | what is shown of a set of names: its first twenty in order, sorted, none left out before one shown |
| StructuredFacts.MetadataFromJsonLd | apps/browser-observer-actor/src/browser-signals.ts:116-142 | the summary is of what the first 50 scripts state together, the unreadable and the too long nothing, currencies and availabilities sorted and cut to twenty |

## Left out

- Account ids are compared as numbers, not in the database's collation; which total order it is does not matter to any result.
- SQL's text, the pool, `fetch`, JSON bodies, headers and log lines of the outbox; the counts it logs; how long a pause of its loop is.
- AdReportTheorems.PostsAreInTime: states the moment of the window check; time may pass between it and the beginning of the post, as in the code.
- Deleting an account that names a merchant, which on the test channel takes its cards with it; a deletion happens between turns.
- A process killed, or a connection lost, in the middle of a turn: the lock is then freed early.
- NaN and infinite keys, negative zero, and texts with half of a surrogate pair alone.
- URL encoding of an address's fields: an address is its path and its fields; the sentences and counts of segments, and what an empty list says.
- AdReportOutbox.Outbox.Loops: takes the steps of all processes in the one order the lock gives them; `Process` has the pauses and the stop of a single one, and what others do meanwhile is given.
- Loading the firewall tool's settings, and the checks of host, Docker networks and DNS behind them: a run is handed their outcome. What is one private network is a parameter.
- Quoting in listings: a rule is its words.
- `safeBrowserRequest`: sockets, pinned DNS, decoding and which of its events settles it first.
- Console, page-error, download, dialog and popup handling, and the observed page's own signals; the findings built from them.
- ObservationRun.Run.Observe: deadlines are answers of the world at the points where the loop looks; what closing a page or the browser does is not part of this model.
- HTML tokenizing: a page is given as the events its reader is given (`Tokens`), and as a tree with those events (`EveryPageIsATree`).
- The rendered page's own walk of its structured data repeats the one modelled.
- The release and restore protocol, sign-in, orders and the screens.
