# Verification of Haaukins

Haaukins runs capture-the-flag events: a daemon admits events, a hub per event keeps a stock of virtual labs
ready, teams sign up, get a lab, submit flags and appear on a scoreboard. The Dafny files in this directory model
the parts of that program that hold state over time or transform data, and prove what they keep, what they restore
and where they fall short. `dafny verify dfyconfig.toml` checks everything.

| module | models |
|---|---|
| `Hub`, `HubInvariants`, `HubTheorems`, `HubProgress`, `HubDelivery` | the lab hub as a state machine: two workers, a coordinator, a forwarder, consumers, `Update` and `Close`, one event per move, channels as sequences |
| `Utf8`, `Decimal`, `Frames`, `FrameLaws`, `KeyLogger` | the guacamole frame parser, the protocol's printer, the typed frames and the key and mouse filters |
| `Flags` | the random flag sampler and the way a flag is shown |
| `Teams`, `TeamStores`, `Scoreboard` | a team's challenges, the store of teams with its reload, and the scoreboard |
| `IpPool`, `Booking` | the VPN subnet pool and the booking of days |
| `EventPools`, `Events`, `EventLaws`, `Quota`, `DayLoads`, `Handlers` | the life of an event in database and pool, the quota of a restricted user, the booked days over whole runs, and requests that overlap |
| `Exercises`, `Environments`, `Labs` | the machines of a lab: creating, resetting, suspending, resuming, restarting |

Objects whose methods update fields are classes here too, and their methods are proved against functions on values;
the laws are lemmas about those functions. The hub is the exception: its goroutines share channels, so it is a step
relation on values, and its theorems quantify over all finite interleavings. What comes from outside (random draws, the
clock, which database write or machine operation fails, the order in which a Go map is ranged over) is a parameter,
or a nondeterministic choice, so every result holds for all of it.

What the proofs found, beside the intended properties:

- Hub: `wg.Add(1)` runs after the token has been received, so `wg.Wait()` can return with a worker about to build
  a lab, and that worker then sends on the closed `labs`. This is reachable for every buffer and capacity
  (`RaceIsReachable`), and `WaitLeadsToPanicIff` says exactly when it happens. Labs that share a tag overwrite each
  other in `startedLabs`; the overwritten ones are never closed (`LabCanBeLost`). A capacity of 0 or 1 is exceeded.
- Team: a new challenge whose flag value is already the key of a solved challenge erases that solution
  (`SolvedCanBeErased`).
- Team store: a sign-up checks the capacity and saves its team in two critical sections. The capacity holds for all
  interleavings exactly when at most one request is between the two (`TeamStores.CapacityHoldsIff`); with two, an event
  takes any number of teams.
- VPN pool: `Get` never reports that no address is left. There are 510 addresses and the test is for 60000; when all
  are held, it retries for ever (`PoolCanBeExhausted`). The host's own addresses, put into the pool at the start, have
  three parts and never equal a generated one, which has two. `randomPickWeighted` gives the first key one draw too
  many and the last one too few.
- Booking: the int32 sum in `isFree` wraps around, so a huge capacity is accepted on a full day, and a negative one
  makes room for others; `DaysHoldIff` gives the capacities for which the limit is safe. `getDates` stops after 106752
  days, the longest difference a `time.Duration` can hold. A time series without entries arrives as a nil map, and
  the first write to it panics, so a ledger that starts empty never grants a booking (`EmptyLedgerStaysEmpty`).
- Events: `CreateEvent` inserts the row before it builds the event. If building fails, the row stays, with status
  Running and no event in the pool, and no step of the daemon ever closes it. Three kinds of request end the daemon
  (`CreateCrashesIff`): an event of negative capacity that starts at once, for its hub makes a channel of that size;
  a booking of at least one day that meets a time series without entries; and a booking that names no frontend and
  finds every day free. A due booking of negative capacity ends it too (`VisitCrashesIff`). A due booking that
  cannot be built blocks the later ones at every visit. A booking is accepted under a tag that `NewTag` refuses, and
  then it cannot be stopped. A restricted user's own bookings decide whether a booking is dropped, but the one that
  is dropped is the one asked for (`AnothersBookingCanBeDropped`).
- Quota: it is checked against what is held before, so the bound is 80, not 40, and it holds over all runs exactly
  if requests for negative capacities are kept out (`QuotaHoldsIff`). When a user has n requests between check and
  write at once, the least bound is 40 times n + 1 (`QuotaHoldsWithIff`). When two requests of any users may be there,
  one can put its event in the place of the other's (`TagsSafeIff`, `EventCanBeOverwritten`).
- Labs: suspending and resuming also starts machines that had been stopped, if another machine of the exercise was
  running or suspended. Each reset repeats the DNS records of an exercise. A lab can be restarted exactly when none of
  its exercises is static with containers (`LabRestartsIff`).

## Model

| member | source | states |
|---|---|---|
| HubTheorems.RunKeepsGood | lab/hub.go:40-173 | in every reachable state the token, buffer, registry, conservation and exclusion invariants hold together |
| HubTheorems.BufferBound | lab/hub.go:41-49 | labs being built, waiting in `labs` or in the coordinator's hand are at most two, and with the queue at most max(buffer, 2), for every interleaving |
| HubTheorems.CreatedBound | lab/hub.go:99-120 | for a capacity of at least two, no run builds more labs than the capacity, plus one for every registered lab that lost its entry to an equal tag |
| HubTheorems.CapacityHoldsIff | lab/hub.go:109-118 | the two equality tests bound creation by the capacity exactly when the capacity is at least two |
| HubTheorems.TokenSendNeverBlocks | lab/hub.go:80-83 | whenever the coordinator stands at the send on `ready`, the channel is open and a worker can reach its receive by its own moves alone |
| HubTheorems.WaitLeadsToPanicIff | lab/hub.go:54-55 | letting the wait group's Wait return can lead to a send on the closed `labs` exactly when a worker then holds a token it has not counted |
| HubTheorems.RaceIsReachable | lab/hub.go:122-126 | every hub has a run that gets into that situation |
| HubTheorems.PromptRunsNeverPanic | lab/hub.go:66-67 | in runs where Wait does not overtake a counted token, no goroutine ever sends on a closed channel |
| HubTheorems.ShutdownClosesEverything | lab/hub.go:122-138 | once coordinator and workers have returned, each lab ever created has been closed exactly once, except overwritten ones, which never are |
| HubTheorems.ShutdownLosesNothingIff | lab/hub.go:65-76 | the closed labs are exactly the created ones, with multiplicity, if and only if the registered labs carry different tags |
| HubTheorems.LabCanBeLost | lab/hub.go:102 | every hub has a complete run in which both workers draw the same tag and a lab is never closed |
| HubTheorems.CirculatesOnce | lab/hub.go:143-150 | a lab is in at most one of the coordinator's hand, the queue, a consumer, Update, `deallocated` and the forwarder, and only if it was created |
| HubTheorems.TakenAgainNeedsReturn | lab/hub.go:161-163 | over any continuation, a taken lab is not handed out again unless its consumer returned it |
| HubDelivery.QueueIsServed | lab/hub.go:161-163 | in every state n receives in a row take the first n labs of the queue, oldest first, and there are no more receives than labs |
| HubDelivery.HandsOutOldest | lab/hub.go:103-107 | a hand-out of a buffered hub is always of the oldest lab in the queue; an unbuffered one hands over what the coordinator or the forwarder holds |
| HubDelivery.ReceivesOldest | lab/hub.go:101-102 | the coordinator receives the oldest lab in the buffer; without a buffer, one that a worker offers |
| HubDelivery.ForwardsOldest | lab/hub.go:146-147 | the forwarder, with its hands empty, takes the oldest lab given back; without a buffer, one that is in Update |
| HubDelivery.ChannelsAreFifo | lab/hub.go:47-49 | over every run, what is left of a channel stays in front and in its order |
| HubDelivery.EverythingComesBack | lab/hub.go:143-173 | from every state, moves of Update, the forwarder and consumers alone can hand out all labs that are in the queue, with the forwarder, in `deallocated` or in Update |
| HubDelivery.NothingLostBeforeClose | lab/hub.go:99-120 | in every run before Close, each lab ever built is in exactly one place: with a worker, in `labs`, with the coordinator, in the queue, with a consumer, in Update, in `deallocated` or with the forwarder |
| HubDelivery.EveryLabCanBeTaken | lab/hub.go:66-120 | once NewHub has returned and before Close, every lab ever built is with a consumer in some continuation of the run |
| HubDelivery.RunKeepsFit | lab/hub.go:47-49 | in every run the buffers of `labs`, the queue and `deallocated` keep to their sizes |
| HubTheorems.UpdateNeverBlocks | lab/hub.go:170-173 | with distinct tags, the send in Update always has room |
| HubProgress.HubComesToRest | lab/hub.go:52-141 | the number of moves of the hub's own goroutines in a run is bounded by a linear function of the capacity, whatever consumers do |
| HubProgress.RestAfterCloseIsComplete | lab/hub.go:165-168 | after Close the hub's goroutines are out of moves only when coordinator and both workers have returned, so shutdown does not deadlock |
| HubProgress.RestMeansFull | lab/hub.go:99-120 | with distinct tags and a capacity of at least two, a hub that has not been closed and is out of moves with its coordinator at the select has built exactly as many labs as its capacity |
| Utf8.DecodeEncoded | svcs/guacamole/proto.go:47 | decoding the bytes of a rune, whatever follows them, gives the rune and its width |
| Utf8.EncodeDecoded | svcs/guacamole/proto.go:33 | re-encoding a decoded well-formed sequence gives its bytes |
| Utf8.DecodesFirstRune | svcs/guacamole/proto.go:33 | bytes that begin with an encoded rune decode to it, all others to U+FFFD, one byte at a time |
| Utf8.ReencodesIffValid | svcs/guacamole/proto.go:32-49 | decoding and re-encoding a byte string is the identity exactly on valid UTF-8 (section 3 of RFC 3629) |
| Frames.NewFrame | svcs/guacamole/proto.go:26-52 | the loop ends on arbitrary bytes and returns the frame that the separators and dots of the decoded string define |
| FrameLaws.ParsedIsClean | svcs/guacamole/proto.go:34-48 | on arbitrary bytes, opcode and arguments are valid UTF-8 without '.', ',' and ';' |
| FrameLaws.RoundTripIff | svcs/guacamole/proto.go:17-52 | parsing a printed frame returns the frame exactly when its fields are clean and it has an opcode (or nothing) |
| FrameLaws.FollowingFrameBecomesArguments | svcs/guacamole/proto.go:37-44 | bytes after a complete frame, valid or not, only append their elements to its arguments |
| FrameLaws.TwoPrintedFrames | svcs/guacamole/proto.go:39-43 | two printed frames parse to the first opcode with all elements of the second appended |
| KeyLogger.FilterKey | svcs/guacamole/keylogger.go:41-64 | prefix test, parser, argument check and conditions compose to the key verdict, errors included |
| KeyLogger.FilterMouse | svcs/guacamole/keylogger.go:82-105 | the same for mouse frames |
| KeyLogger.KeyFilterOnAnyBytes | svcs/guacamole/keylogger.go:41-64 | on any bytes: accepted are exactly those with the prefix that parse to a key frame of two arguments and pass; with the prefix, another opcode or number of arguments is the error reported |
| KeyLogger.MouseFilterOnAnyBytes | svcs/guacamole/keylogger.go:82-105 | the same for mouse frames with three arguments |
| KeyLogger.PrefixTestIsExact | svcs/guacamole/keylogger.go:19-21 | a printed frame starts with the length and a word exactly when its opcode is that word |
| KeyLogger.KeyFilterIsExact | svcs/guacamole/proto.go:59-70 | on printed frames the filter accepts precisely key frames with two arguments that pass, fails on key frames with another number, ignores the rest |
| KeyLogger.MouseFilterIsExact | svcs/guacamole/proto.go:78-91 | the same for mouse frames with three arguments |
| KeyLogger.LogFrame | svcs/guacamole/keylogger.go:129-157 | one turn of the logger writes the line that the two filters in order determine |
| KeyLogger.LogIsExact | svcs/guacamole/keylogger.go:23-28 | exactly pressed keys and clicks of button 1, 2 or 4 leave a line |
| Flags.CodesPartitionWord | store/flag.go:86-91 | the codes shifted out of a word, glued together, are its low bits: every bit is used once |
| Flags.TenCodesAreSixtyBits | store/flag.go:22-24 | ten codes cover sixty bits of the word |
| Flags.CodeSelects | store/flag.go:86-89 | the 64 codes select 'a' to 'z', 'A' to 'Z', '1' to '7' and '9', in this order, and the last four nothing |
| Flags.EachLetterHasOneCode | store/flag.go:21-23 | exactly four codes select nothing, each other code selects one letter, and each letter comes from exactly one code |
| Flags.RandCharBytes | store/flag.go:80-95 | for every word stream the cached sampler returns the reverse of the first n letters selected by the stream of ten codes per word, draws no word in vain, and comes up short only when the stream does |
| Flags.NewFlag | store/flag.go:99-124 | a flag is produced exactly when the words select ten letters, and it holds the first ten that their code stream selects, in reverse, in fifteen characters |
| Flags.StripUndoesShow | store/flag.go:107-115 | leaving out the dashes of a shown flag gives the flag back, wherever they were put |
| Flags.ShownAsParts | store/flag.go:111-114 | a flag is shown as exactly those texts that cut its ten letters by two dashes into parts of which the first two have two or three letters |
| Flags.ShowIsInjective | store/flag.go:110-114 | different flags never look alike |
| Teams.Team.constructor | store/team.go:277-305 | a new team holds no challenges and the parsed list from the database, in order, to the second |
| Teams.Team.AddChallenge | store/team.go:441-473 | refuses a tag that is present, otherwise enters the flag with the time of the last matching database entry |
| Teams.Team.VerifyFlag | store/team.go:475-505 | sets the time exactly for a known flag of the right tag that is not completed; every other case leaves the team as it is |
| Teams.Team.IsTeamSolvedChallenge | store/team.go:307-319 | answers a completion time of an entry with the tag, or none if no entry has one, for every iteration order |
| Teams.RunKeepsTagsUnique | store/team.go:443-448 | over every run no two entries share a tag |
| Teams.AnswerIsUnique | store/team.go:311-317 | so the answer about a tag does not depend on the iteration order |
| Teams.AddKeepsSolvedIff | store/team.go:460-469 | adding a challenge keeps every completion time exactly when its flag value is not the key of a solved challenge |
| Teams.SolvedCanBeErased | store/team.go:466-468 | from a fresh team, solving a challenge and adding another under the same flag value leaves the first one unsolved |
| Teams.SolvedForEver | store/team.go:489-495 | over every run without such additions a completion time once set never changes |
| Teams.AcceptedOnce | store/team.go:497-504 | in such runs each tag is accepted at most once, also counting what the database said at the start |
| Teams.RunKeepsAgrees | store/team.go:558-570 | in such runs the database list and the team agree about every tag |
| Teams.ReloadKeepsSolved | store/team.go:452-464 | a team rebuilt from the database and given its tags again, under any distinct flags, has the same tags solved at the same second |
| TeamStores.TeamStore.constructor | store/event.go:140-156 | the reload loop fills both maps row by row |
| TeamStores.ReloadConsistentIff | store/event.go:154-155 | from rows with different ids, the reloaded maps are inverse exactly when the names differ |
| TeamStores.TeamStore.SaveTeam | store/team.go:78-105 | enters a new name in both maps, also when the database insert fails |
| TeamStores.Signups.CheckCapacity | svcs/amigo/amigo.go:681-684 | leaves the store as it is and lets the request go on; within the capacity it passes exactly when there is a place |
| TeamStores.Signups.Refuse | svcs/amigo/amigo.go:687-694 | a request taken for a robot leaves without a trace |
| TeamStores.Signups.SaveNew | svcs/amigo/amigo.go:699-706 | saves the team of a request that passed, and keeps a store within its capacity there if no other request is pending |
| TeamStores.TeamStore.DeleteTeam | store/team.go:120-141 | removes the team and its name from memory whether or not the database follows |
| TeamStores.TeamStore.GetTeamByUsername | store/team.go:166-181 | with inverse maps the second lookup never fails and the team found carries the name |
| TeamStores.SaveKeepsConsistentIff | store/team.go:81-88 | saving keeps the maps inverse exactly when the name is taken or the id is new |
| TeamStores.DeleteKeepsConsistent | store/team.go:123-130 | deleting keeps them inverse and removes one team |
| TeamStores.RunKeepsConsistent | store/team.go:78-141 | over every interleaving of checks, saves with fresh ids and deletions, the maps stay inverse |
| TeamStores.RunKeepsBounded | svcs/amigo/amigo.go:681-706 | while at most one request is between its check and its save, the event stays within its capacity |
| TeamStores.CapacityHoldsIff | svcs/amigo/amigo.go:681-706 | for a number of requests that may be between check and save, the capacity holds in all runs exactly when it is at most one, or there are no places |
| TeamStores.AnyNumberOfTeams | svcs/amigo/amigo.go:681-706 | with two such requests there are runs that end with any number of teams |
| TeamStores.AboveCapacityUnchecked | svcs/amigo/amigo.go:681 | a store above its capacity is not held back: the test is for equality |
| Scoreboard.GetChallengeCategories | svcs/amigo/table.go:50-60 | the loop over a key map computes the categories |
| Scoreboard.CategoriesInFirstOccurrenceOrder | svcs/amigo/table.go:53-58 | the categories are distinct, complete and in the order of their first occurrence |
| Scoreboard.BuildTable | svcs/amigo/table.go:71-97 | grouping and sorting in loops yields, for every category, its challenges stably sorted by points |
| Scoreboard.SortIsStable | svcs/amigo/table.go:93-95 | the sorting function satisfies the contract of a stable sort |
| Scoreboard.StableSortIsUnique | svcs/amigo/table.go:91-97 | that contract leaves exactly one result |
| Scoreboard.TableIsPermutation | svcs/amigo/table.go:78-89 | the flattened table is a permutation of the challenges |
| Scoreboard.TeamInfo | svcs/amigo/table.go:119-141 | a row has one cell for every challenge of the flattened table, in its order, and the wrapped sum of the solved ones |
| Scoreboard.TableHolds | svcs/amigo/table.go:78-97 | under each heading, in the order of the categories, a name, tag and number of points stands as often as there are such challenges of that category, sorted by points |
| Scoreboard.TotalIsSumOfSolved | svcs/amigo/table.go:123-132 | the sum over the table equals the sum of the points of those challenges of the original list whose tags are solved |
| Scoreboard.ReloadKeepsScore | svcs/amigo/table.go:125-131 | a team rebuilt from the database after any run has the same score |
| IpPool.RandomPickWeighted | daemon/net.go:22-38 | for every draw below the total, whatever the signs of the weights, the loop returns the first key at which the running total reaches the draw |
| IpPool.EveryDrawPicksOneEntry | daemon/net.go:30-37 | every draw picks exactly one entry, so the loop never falls through to the empty string |
| IpPool.SharesAreOffByOne | daemon/net.go:31-34 | of all draws the first entry gets its weight plus one, middle entries their weight, the last its weight minus one |
| IpPool.NetworkShares | daemon/net.go:48-58 | a drawn address is in network 25 or 35; network 25 gets its weight of the draws, one more when it is ranged over first, one less when last |
| IpPool.CountIsSize | daemon/net.go:79-108 | the weights are lowered by the number of host addresses in each network |
| IpPool.FullIsReportedIff | daemon/net.go:44-46 | the error is given exactly when more than 60000 addresses are held, and then none is handed out |
| IpPool.TotalIgnoresOrder | daemon/net.go:23-28 | summing the weights in another order than the picking loop changes nothing |
| IpPool.IPPool.constructor | daemon/net.go:78-124 | the initial pool holds the first three parts of the host's addresses in the two networks, and the weights are lowered by their number |
| IpPool.IPPool.Get | daemon/net.go:40-70 | returns and adds the first drawn address that is free, gives up above 60000, and changes nothing otherwise |
| IpPool.IPPool.ReleaseIP | daemon/net.go:72-76 | removes exactly that address |
| IpPool.SpaceSize | daemon/net.go:49-58 | genIP can produce exactly 510 different addresses |
| IpPool.LoopCanExitIff | daemon/net.go:60-65 | some draws end the retry loop if and only if one of the 510 is free |
| IpPool.NeverHandsOutHeld | daemon/net.go:64-67 | in every run an address is handed out twice only if it was released in between |
| IpPool.HeldIsBounded | daemon/net.go:67 | in every run at most 510 addresses are held on top of the initial ones |
| IpPool.ExhaustionSpins | daemon/net.go:44-46 | from a pool with few host addresses the error is never returned, and with all 510 held every sequence of draws goes on |
| IpPool.PoolCanBeExhausted | daemon/net.go:60-67 | a run of 510 calls holds every address, and from then on Get answers no sequence of draws |
| IpPool.HostAddressesBlockNothing | daemon/net.go:112-113 | entering the host's addresses never makes Get choose another address |
| IpPool.VpnAddressRoundTripIff | daemon/event.go:184 | reading the subnet back from an event's address works exactly when the subnet does not hold the suffix |
| IpPool.StopReturnsTheSubnet | daemon/event.go:372-376 | creating a VPN event and stopping it leaves the pool as it was, whatever was drawn |
| Booking.SubIsNearest | daemon/daemon.go:532 | a difference of times is the 64-bit number of nanoseconds nearest to it |
| Booking.DaysBetweenMidnights | daemon/daemon.go:531-538 | between midnights the rounded float division is the exact number of days, up to the range of a duration |
| Booking.GetDates | daemon/daemon.go:540-556 | the counting loop lists midnights of consecutive days |
| Booking.DaysAreCompleteIff | daemon/daemon.go:542-555 | the days are distinct, in order and within the interval, and complete exactly when it is at most 106752 days long |
| Booking.IsFree | daemon/daemon.go:511-529 | answers free, not free or crashes, as the series it is given and not the one it updates while testing says |
| Booking.FreeOnIff | daemon/daemon.go:520-528 | crashes exactly on a series without entries and an interval that holds a day; succeeds exactly when there is no day or every day of a series with entries accepts |
| Booking.EmptyLedgerStaysEmpty | daemon/daemon.go:522 | no run of bookings fills a ledger that starts empty: each booking for a day crashes on it |
| Booking.AcceptsIff | daemon/daemon.go:522-523 | for every int32 capacity: a day is accepted exactly when its sum is an int32 of at most 90, exceeds int32, or lies so far below it that it wraps around to at most 90 |
| Booking.SafeCapacityIff | daemon/daemon.go:511 | among all int32 capacities, acceptance keeps a day from 0 to 90 within the limit exactly for those up to 2147483557 |
| Booking.LedgerIsSum | daemon/daemon.go:521-526 | after any run, what is promised for a day is what was there plus the granted bookings that cover it |
| Booking.DaysHoldIff | daemon/event.go:259-263 | the machines needed on a day stay within 90, over all runs of bookings with capacities in an int32 range, exactly when the range starts at 0 or above and ends at 2147483557 or below, or holds nothing positive |
| Booking.NoDayIsOverbooked | daemon/event.go:259-263 | for such capacities the promised and the needed machines of a day agree and never exceed 90 |
| Booking.FullDayAccepts | daemon/daemon.go:520-527 | a full day accepts every capacity above 2147483557 |
| Booking.NegativeMakesRoom | daemon/daemon.go:520-527 | a full day accepts -1 machine and then one, so 91 are needed |
| EventPools.EventPool.AddEvent | daemon/eventpool.go:37-45 | enters event and handler under the event's tag and nothing else |
| EventPools.EventPool.RemoveEvent | daemon/eventpool.go:47-59 | removes both, or reports an unknown tag and changes nothing |
| EventPools.EventPool.GetEvent | daemon/eventpool.go:61-70 | finds exactly the events of the map |
| Events.SumSplit | daemon/event.go:846-848 | a sum over rows does not depend on the order in which the response lists them |
| Events.Daemon.CheckUserQuota | daemon/event.go:834-855 | the int32 loop is eligible exactly when the wrapped total of the user's rows is at most 40 or the user is unrestricted |
| Events.Daemon.CreateEvent | daemon/event.go:68-244 | the checks in their order, the booking, the defaults, the insertion and the building, with every panic on the way, give the specified outcome and state |
| Events.Daemon.BookEvent | daemon/event.go:246-295 | a booked row is written exactly when the dates parse, every day is free, quota is left and a frontend is named; the empty series and the missing frontend end the daemon, each in its place |
| Events.Daemon.SuspendEvent | daemon/event.go:505-541 | status in database and event and the served page change together, for the owner or an unrestricted user |
| Events.Daemon.StopEvent | daemon/event.go:334-423 | refuses an invalid tag, closes a live event in database and pool, or drops a booking, or reports why not |
| Events.Daemon.StopOwnBooking | daemon/event.go:404-416 | the loop over a restricted user's bookings drops the requested tag if there is one |
| Events.Daemon.VisitBookedEvents | daemon/event.go:586-623 | starts due bookings in order up to the first that fails, or panics for its negative capacity |
| Events.Daemon.CloseEvents | daemon/event.go:679-738 | closes what is overdue, one event after another |
| EventLaws.CreateAppends | daemon/event.go:151-165 | an event is only created under a tag that is in neither database nor pool, and no other tag is touched |
| EventLaws.StartBookedAgrees | daemon/event.go:608-616 | starting a booked event never overwrites one in the pool |
| EventLaws.InsertsIff | daemon/event.go:95-234 | from the request and what is known before it: exactly when a row for an event that starts at once is written, and when the event then starts |
| EventLaws.BooksIff | daemon/event.go:170-287 | from the same: exactly when a booking is written, and when it panics |
| EventLaws.RefusedFor | daemon/event.go:95-203 | a refused request is given the first reason that applies, in the order of the checks, and changes nothing |
| EventLaws.CreatedRow | daemon/event.go:217-241 | the row of an event that starts at once has the capacity or 10, the finish or 15 days from now, and never a finish that has passed; a built event is in the pool with the same data, and served |
| EventLaws.BookedAsAsked | daemon/event.go:272-287 | a booking is written with the capacity and dates asked for, and nothing else changes |
| EventLaws.CreateCrashesIff | daemon/event.go:276 | from the same: the request ends the daemon exactly by a hub of negative capacity, a time series without entries, or a free booking without frontends, and the bookings among these write nothing |
| EventLaws.CreateAgreesIff | daemon/event.go:235-242 | creating keeps database and pool in agreement exactly unless such a row is written for an event whose building fails or whose capacity is negative |
| EventLaws.RunAgreesIff | svcs/guacamole/event.go:158-213 | database and pool agree after a run exactly when no step of it wrote a row for an event that could not be built |
| EventLaws.RunAgrees | daemon/eventpool.go:22-29 | over runs in which events can be built, the pool's tags are those of running and suspended rows, both maps have the same keys, and the suspend page is installed exactly for suspended events |
| EventLaws.OrphanStaysForEver | daemon/event.go:363-370 | after a failed creation no run closes the row, stopping and suspending it fail for every user, and its tag is never available again |
| EventLaws.StopClosesIff | daemon/event.go:363-391 | stopping closes and archives a running or suspended event exactly for an unrestricted user and for its owner; otherwise nothing changes |
| EventLaws.SuspendSetsIff | daemon/event.go:521-540 | suspending and resuming, in either state, sets row, event and page exactly for an unrestricted user and for the owner; otherwise nothing changes |
| EventLaws.ValidTagIff | store/flag.go:30-31 | a tag is valid exactly if letters or digits, with hyphens inside only, make it up and it has two characters or more |
| EventLaws.NoEventVanishes | daemon/event.go:387-391 | over every run, a running or suspended event stays in the database with its owner, capacity and dates, or its closed row is in the archive |
| EventLaws.ResumeUndoesSuspend | daemon/event.go:523-538 | suspending and resuming restores database and pool |
| EventLaws.CloseAllClosesOverdue | daemon/event.go:706-730 | closing removes exactly the listed running and suspended events whose finish has passed from both, archives their rows, and leaves the others as they are |
| EventLaws.VisitStartsDue | daemon/event.go:595-618 | a booked event runs and is served after a visit, with its own data, exactly when its start has come and it and every such booking listed before it can be built; every other one is untouched |
| EventLaws.VisitSucceedsIff | daemon/event.go:609-612 | a visit succeeds exactly when every due booking can be built |
| EventLaws.VisitCrashesIff | svcs/guacamole/event.go:158 | a visit ends the daemon exactly when the first due booking that cannot be built has a negative capacity and reaches its hub |
| EventLaws.InvalidTagNeverStops | daemon/event.go:348-361 | stopping is refused, and changes nothing, exactly for tags that NewTag refuses or the database does not have |
| EventLaws.DropsBookingIff | daemon/event.go:401-419 | for a valid tag, a booking is dropped exactly when the user is unrestricted or has some booking, whosever it is; nothing else changes |
| EventLaws.AnothersBookingCanBeDropped | daemon/event.go:404-413 | a run from an empty daemon after which a member can drop another member's booking |
| Quota.CreateKeepsWithin | daemon/event.go:100-109 | creating at once or by booking, with the default of 10, keeps a restricted user's total at most 80 |
| Quota.RunKeepsWithin | daemon/event.go:264-268 | over every run a restricted user who never asks for a negative capacity holds at most 80, whatever others ask for |
| Quota.BoundIsReached | daemon/event.go:850-852 | two bookings take a member from nothing to 80 |
| Quota.NegativeBookingMakesRoom | daemon/event.go:260-287 | bookings of -1, 40, 1 and 40 and dropping the first leave a member with 81 |
| Quota.QuotaHoldsIff | daemon/event.go:834-855 | the bound of 80 holds over all runs of a restricted user who asks for at least a given capacity exactly when that is not negative |
| DayLoads.CreateKeepsDays | daemon/event.go:259-287 | a booking granted against a time series that counts at least the booked rows, and does not overflow, fits on each of its days |
| DayLoads.RunKeepsDays | daemon/daemon.go:511-529 | over every run of the daemon that meets such series, with bookings granted, started, dropped and closed, the booked rows hold at most 90 machines of any day |
| Handlers.CheckThenWriteIsCreate | daemon/event.go:105-242 | the two steps of a request that nobody interrupts are one CreateEvent |
| Handlers.RunKeepsAccounted | daemon/event.go:834-855 | over every interleaving, what a restricted user holds and 40 for each of the user's requests between check and write never exceed 40 times n + 1 |
| Handlers.QuotaHoldsWithIff | daemon/event.go:105-242 | the least bound on what a restricted user with up to n such requests can come to hold is 40 times n + 1, and 0 for n = 0 |
| Handlers.TagsSafeIff | daemon/event.go:151-219 | over all interleavings nothing is written over another event exactly when at most one request is between check and write |
| Handlers.EventCanBeOverwritten | daemon/eventpool.go:37-45 | two overlapping requests for one tag: the second user's event takes the place of the first's in the pool |
| Exercises.Exercise.Create | exercise/exercise.go:95-165 | kept addresses are reused, new ones kept on success only, and the records of the containers connected before a failure stay |
| Exercises.Exercise.Start | exercise/exercise.go:167-185 | every machine that does not fail runs, and success means all do |
| Exercises.Exercise.Suspend | exercise/exercise.go:187-197 | running machines are suspended in order up to the first failure, others untouched |
| Exercises.Exercise.Reset | exercise/exercise.go:228-242 | close, create and start composed, with the state after each possible failure |
| Exercises.CreateWrites | exercise/exercise.go:128-136 | Create appends the records of the connected containers in order: name, type and given data stay, and missing data becomes the address of the container, the kept one if there is one |
| Exercises.CreateSucceedsIff | exercise/exercise.go:158-164 | it succeeds exactly when no unit fails and the exercise is not static with containers; then all machines are stopped and addresses kept or set, otherwise both stay |
| Exercises.SuspendSucceedsIff | exercise/exercise.go:188-194 | suspending succeeds exactly when no running machine fails |
| Exercises.FailingSuspendLeaves | exercise/exercise.go:188-194 | when it fails, the running machines before the failing one are suspended, that one is as it failed, and the rest as before |
| Exercises.AddressesNeverChange | exercise/exercise.go:113-128 | after its first creation no sequence of resets, failing or not, changes an exercise's addresses |
| Exercises.ResetsRepeatRecords | exercise/exercise.go:132-140 | after k successful resets the records are k + 1 copies of the first ones and every machine runs |
| Exercises.ResetsAddOnlyFirstRecords | exercise/exercise.go:101-143 | whatever resets fail and where, no record ever differs from those of the first creation |
| Environments.Environment.Add | exercise/environment.go:85-132 | adds a prefix of the configurations, keeps tags distinct and linked and the DNS records those of the addresses held, and reports the first that fails |
| Environments.RecordsInOrder | exercise/environment.go:113-125 | the DNS records are one for each A record of a container that is no client, in exercises that are not static, in order, with the name in it and the address of its container |
| Environments.RecordedIff | exercise/environment.go:113-125 | an address and a name are recorded as often as there are such A records, and not at all otherwise |
| Environments.Environment.Suspend | exercise/environment.go:232-240 | the exercises in order, up to the first that fails; the DNS records stay right |
| Environments.Environment.Resume | exercise/environment.go:244-255 | the nested loop over old states starts an exercise exactly when one of its machines is suspended |
| Environments.Environment.Reset | exercise/environment.go:214-230 | the exercises in order, up to the first that fails; the DNS records stay right |
| Environments.SuspendThenResume | exercise/environment.go:232-255 | afterwards a machine runs exactly when it ran or some machine of its exercise ran or was suspended, and nothing else changed |
| Environments.SuspendAllSucceedsIff | exercise/environment.go:232-240 | suspending succeeds exactly when no running machine of any exercise fails |
| Environments.FailingSuspendAllLeaves | exercise/environment.go:233-237 | when it fails, the exercises before the failing one are suspended, that one as far as it got, and those after it untouched |
| Environments.ResumeAllSucceedsIff | exercise/environment.go:244-255 | resuming succeeds exactly when no exercise with a suspended machine has one that fails to start |
| Environments.FailingResumeAllLeaves | exercise/environment.go:245-253 | when it fails, the exercises before the failing one are resumed, in that one all machines run but those that failed, and those after it are untouched |
| Environments.ResetStartsEverything | exercise/environment.go:223-227 | a successful reset leaves every exercise with all its machines, and all of them running |
| Environments.ResetSucceedsIff | exercise/environment.go:223-227 | a reset succeeds exactly when the reset of each exercise does |
| Environments.FailingResetLeaves | exercise/environment.go:223-227 | a reset that fails leaves the exercises before the failing one reset and running, the failing one without machines if it could not be created, and those after it untouched |
| Environments.EnvironmentResetsIff | exercise/exercise.go:82-88 | some reset of the environment can succeed exactly when no exercise of it is static with containers |
| Environments.ResetKeepsAddresses | exercise/environment.go:223-227 | resetting, successful or not, changes no address, so the records written by Add stay right |
| Labs.Lab.Restart | lab/lab.go:253-294 | restarting without error leaves every exercise with all its machines running and every frontend running; a failing restart leaves what the failing part of it left |
| Labs.Lab.RestartFrontend | lab/lab.go:260-290 | in each state the switch performs its operations in order, each in a state that admits it, up to the first that fails, and ends running unless one does |
| Labs.RestartBootsShortest | lab/lab.go:260-290 | in every state the operations of the switch boot the machine anew, and no shorter sequence does |
| Labs.RestartSucceedsIff | lab/lab.go:259-291 | a sweep of restarts succeeds exactly when no frontend fails during the operations its state needs |
| Labs.FailingRestartLeaves | lab/lab.go:259-291 | when it fails, the frontends before the failing one run, that one is as it failed, and the rest as before |
| Labs.RestartedRuns | lab/lab.go:259-291 | a sweep over the frontends that succeeds leaves all of them running and adds none |
| Labs.LabRestartsIff | lab/lab.go:253-294 | a restart of the lab can succeed, whatever the states of its machines and frontends, exactly when no exercise of it is static with containers |
| Labs.Lab.Suspend | lab/lab.go:350-365 | the environment first, then the running frontends, up to the first failure |
| Labs.Lab.Resume | lab/lab.go:367-381 | the environment first, then the suspended frontends, up to the first failure |
| Labs.MoveSucceedsIff | lab/lab.go:356-378 | suspending or resuming the frontends succeeds exactly when none in the state to be moved fails |
| Labs.FailingMoveLeaves | lab/lab.go:356-378 | when it fails, those before the failing one are moved, that one is as it failed, and the rest as before |
| Labs.FrontendsSuspendThenResume | lab/lab.go:356-378 | afterwards a frontend runs exactly when it ran or was suspended, otherwise it is unchanged |

## Left out

- Labs that cannot be built: `NewLab` and `Start` succeed in the hub model; on an error the source goes on with a nil
  lab (lab/hub.go:57-64). `Close` of the hub is called at most once and not before `NewHub` has returned, and `Update`
  is given labs that a consumer holds.
- Hub as a class: it is a step relation on values, because its goroutines interleave at every channel operation.
- Suspending and resuming the labs of a hub: it never reports the failure of a lab (lab/hub.go:181-183), so it never
  makes suspending an event fail.
- A hub with a negative capacity: making its channel panics, so the hub model starts from capacities that are not
  negative; the daemon's steps say when this happens.
- KeyLogger.LogFrame: the channel in front of the loop, and the writer behind it.
- Flags.RandCharBytes: the words are a finite stream given in advance; the generator behind them is not modelled, nor
  is the choice of the dashes, which is a parameter of the shown flag.
- Teams.Team.VerifyFlag: when the database write fails, the mutex is unlocked twice, which ends the program; the model
  says so and the laws are about runs without it.
- Teams.Team.constructor: parsing the JSON text and the dates in it; the list is given as tags and seconds, and a date
  that cannot be parsed is the second of the zero time, as in the source.
- TeamStores.TeamStore.DeleteTeam: an unknown id dereferences a nil team; the result says so and the laws treat it as
  no change.
- Team tokens, passwords, VPN keys and disabled challenges, and the lock that `GetVPNConn` keeps.
- Scoreboard.BuildTable: the library's stable sort is replaced by a function that meets its contract; JSON output and
  the message around the table.
- IpPool.IPPool.Get: the retry loop runs on a finite sequence of draws and answers that it is still spinning when they
  are used up; with weights whose total is not positive the draw itself ends the program.
- Which event holds which VPN subnet: it is released before the checks of privilege and date (daemon/event.go:372-378,
  daemon/event.go:700-706), so only the pool's guarantees and the undisturbed case are stated.
- Booking.GetDates: dates are UTC seconds; parsing and formatting them, and the rounding of float64 below a nanosecond.
- How the database computes the time series: `DayLoads` takes it to count at least the booked rows.
- Events that start at once are not checked against the days (daemon/event.go:170-242); the model does the same, so the
  booking limit is about bookings.
- Outside of `Handlers` the daemon's handlers run one after another, and there too all checks of a request are one step
  and all it writes is another; other handlers are not split. A second row under one tag takes the place of the first,
  where the database might refuse it.
- What a crashed daemon does when it is started again.
- Events.Daemon.CreateEvent: reserved names, exercise lookup, secrets and the configuration without its tag are two
  booleans from outside, and how far the building of the event gets is a third value; the clock is read once; database
  operations succeed and act on the live row of a tag; what `startEvent` does in the background is not modelled.
- Events.Daemon.CloseEvents: one goroutine per event in the source, one event after another here; an event that another
  handler removes in between would be closed through a nil pointer.
- Event objects are values in the pool's map, so an alias held elsewhere does not see a status change.
- The daemon's restart, which loads running and suspended events again (daemon/daemon.go:334-375).
- Exercises.Exercise.Create: environment variables, images and the network's own choice of addresses, which is a
  parameter; a container gets the address asked for.
- Starting, stopping and closing a whole environment or lab, its DNS and DHCP servers, and single exercises by tag:
  they would repeat what is stated for one exercise.
- Docker, VirtualBox, WireGuard, gRPC, HTTP handlers, templates, the command line and configuration.
