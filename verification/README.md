# A verified model of the market-data platform

This project models, in Dafny, the cores of the platform that decide which data is right: how a multicast feed is
repaired, how frames are found in a byte stream, how queues are thinned, how money is reconciled, and when raw rows may
be deleted. Sockets, databases and clocks become parameters and nondeterministic steps; what remains is proved for all
inputs, all runs and all interleavings.

| part | modules |
|---|---|
| Multicast feed with gap recovery | `Feed`, `FeedKeys`, `Publishing`, `Subscribing`, `Recovery`, `Arriving`, `Counting`, `Requesting`, `Progress`, `Answering`, `Converging`, `Abandoning` |
| MDFP/1 frames, stream parsers, CRC-32 | `Bytes`, `Crc32`, `Framing`, `Parsing`, `FrameParsers` |
| Order ledger | `OrderBook`, `LedgerProofs`, `LedgerRules`, `Notices`, `LedgerLimits`, `ClosedDays`, `Ledger` |
| Trading contest | `ContestBook`, `Spelling`, `ContestProofs`, `ContestMoney`, `Contest` |
| Fan-out queues of the TCP gateway | `Gateway`, `GatewayFilter`, `GatewaySubscriber` |
| Deleting only what is archived | `Retention`, `RetentionRules`, `RetentionProofs`, `Digests`, `Pruner` |
| WebSocket codec | `WebSocket`, `WebSocketMessages`, `WebSocketErrors` |
| Shared-memory ring | `Slots`, `SharedRing`, `RingAccount`, `SharedRingRace`, `RingBuffer` |
| Clock-offset filter | `Clock` |
| Formats in numbers, byte by byte | `WireFormats` |
| Shared by several of them | `Wrappers`, `Layout`, `Sequences`, `Numbers` |

Objects that the source updates in place are classes whose methods are proved against specification functions; the
results are lemmas about those functions and about runs of them. `dafny verify dfyconfig.toml` checks everything.

## Where the code does less than it says

Each with an input for which it fails and the exact condition under which it holds.

- The ring's readers are described as dropping every torn read. They re-check only the tail, which the writer stores
  last, so an item can be accepted with bytes of the push that is overwriting it (`SharedRingRace.TornItemCanBeAccepted`);
  any other accepted item is exact (`SharedRingRace.AcceptedExactlyUnlessOverwritten`).
- Retention deletes only rows that a receipt proves, one by one. As a whole it may delete more copies of a row than were
  archived, if the record written after a batch fails and an equal row arrives (`RetentionProofs.FailedRecordDeletesTwice`).
  A batch is safe exactly when its record is written or it deletes nothing (`RetentionProofs.LostRecordExactly`).
- A frame that waits beyond a gap can be given up although it was received (`Abandoning.WaitingFrameIsGivenUp`), and is
  then counted as `unrecoverable`: exactly when an acknowledgement reports missing numbers and an oldest number above it
  (`Abandoning.GivenUpExactly`).
- After a long gap between readings the clock filter falls behind, and then drops a sample before its time
  (`Clock.LateStartFallsBehind`): exactly when a reading comes a window and a bucket or more after the start of the current
  bucket (`Clock.FallsBehindExactly`).
- Closing a day looks only at its newest hundred thousand orders, and an older one can stay open
  (`LedgerLimits.OldestOrderStaysOpen`, `LedgerProofs.ClosedDayIsFrozen`).
- A retransmission request that runs backward is answered as ten thousand numbers (`Publishing.BackwardIsServed`): exactly
  when it is not empty by one and starts inside the history (`Publishing.BackwardIsEmptyExactly`, `Publishing.BackwardRequest`).

## Assumptions

- The recovery channel delivers in order and without loss; a subscriber subscribes once; published frames are neither
  flagged as snapshot values nor of the receipt type; the retransmission ring is not empty.
- SHA-256, as row chain and as digest of a day's rows in order, is an injective function; times in a journal row are text,
  as the source hashes them, so injective chains exist, and so do such digests
  (`ContestProofs.SpellingIsInjective`, `Digests.InjectiveDigestExists`). Receipt files do not change.
- In the ledger an order is marked only while it is being submitted, as the trading desk does. The ledger itself
  accepts and fills a new order on a closed date; only the desk refuses it (src/mdfeed/services/order_desk.py:285).
  What is proved about a closed day is about the orders in the book at closing, and about its fills as long as no order
  is placed on it (`ClosedDays.ClosedDayKeepsItsFills`, `ClosedDays.PlacedOrderChangesTheDay`).
- A subscriber's queue limit is at least one. A contest's fees and taxes together take at most the whole amount
  where that matters (`ContestProofs.RunStaysSolvent`).
- Stores and loads of the ring take effect in program order, each header field at once; a reader does not start past
  the writer. Time does not run backward in the clock filter.

## Model

| member | source | states |
|---|---|---|
| `Recovery.DeliveryIsExact` | src/mdfeed/mcast_client.py:109-208 | In every run, whatever datagrams are lost, repeated or reordered: after the snapshot the delivered numbers strictly increase, each delivered frame is the one published under its number, delivered plus given up is the distance from the snapshot's next number to the next expected one, and with nothing given up the log is the published history without a gap |
| `Recovery.ViewIsCurrent` | src/mdfeed/mcast_client.py:176-192 | In every run with nothing given up, the snapshot overlaid with the delivered frames is the publisher's latest-value table after exactly the frames passed, for every moment the snapshot may have been taken |
| `Recovery.OnlyOverwrittenFramesAreGivenUp` | src/mdfeed/mcast_client.py:197-206 | A number is passed over without its frame only if the publisher's ring had overwritten it; while the ring has held the whole history nothing is given up |
| `Arriving.EarlyFramesAreNotMissed` | src/mdfeed/mcast_client.py:125-130 | In every run: a datagram frame that arrives before the snapshot has ended waits until then; from then on, unless the snapshot already covers it, its number is below the expected one or still waiting; the only exception is a time at which two hundred thousand greater numbers wait |
| `Arriving.EarlyFrameIsKept` | src/mdfeed/mcast_client.py:126-130 | Such a frame joins those that wait; only with more than two hundred thousand of them the lowest number goes, and nothing else changes |
| `Counting.EveryFrameIsCounted` | src/mdfeed/mcast_client.py:109-148 | In every sequence of arrivals after the snapshot: frames handed over, waiting and counted as duplicates are together all data frames that arrived, and the counters of requests and of frames handed on are true |
| `Counting.StaleAreDiscarded` | src/mdfeed/mcast_client.py:179-186 | At the end of the snapshot the waiting frames it covers go and are counted as discarded; every other one is handed over or waits |
| `Counting.ReorderedAre` | src/mdfeed/mcast_client.py:139-147 | Counted as reordered are the datagram frames that are ahead and were not waiting |
| `Counting.ReceiptCounts` | src/mdfeed/mcast_client.py:194-199 | A receipt adds its number of frames sent and counts nothing else twice |
| `Counting.DrainingForgets` | src/mdfeed/mcast_client.py:119-123 | Draining forgets since when the numbers it hands over were missing, and of no others |
| `Counting.SkippingForgets` | src/mdfeed/mcast_client.py:200-206 | A receipt that skips numbers forgets since when any number below the new expected one was missing |
| `Recovery.StepKeepsInv` | src/mdfeed/mcast_client.py:125-214 | Every step of publisher, channel and subscriber keeps the joint invariant behind the results above |
| `Recovery.RunKeepsInv` | src/mdfeed/mcast_client.py:216-241 | The joint invariant holds after every sequence of steps |
| `Progress.AnswerClosesTheGap` | src/mdfeed/mcast_client.py:194-208 | The whole answer to a request for [from, to] leaves the expected number past the end of what was asked for (at most ten thousand numbers), lapped or not, whatever datagrams and timer ticks come in between; if the ring still had them all nothing is given up |
| `Answering.AskedIsThere` | src/mdfeed/mcast_client.py:194-208 | In every run of the whole system: once the next request is served and the recovery stream up to the end of its answer has come through, with anything in between, every number it asked for (ten thousand at most) is behind the subscriber or in its buffer, and a subscriber that has come to the start of the run is past its end |
| `Answering.StreamIsTaken` | src/mdfeed/mcast_client.py:216-236 | After n recovery frames the first n messages that were under way have been taken, in every continuation of every reachable state |
| `Converging.ServedIsThere` | src/mdfeed/mcast_client.py:194-236 | In every run: whenever the recovery stream has been taken to its end, every number of every request served (ten thousand of each) is behind the subscriber or in its buffer |
| `Converging.TickAsksForAll` | src/mdfeed/mcast_client.py:238-240 | A tick leaves no missing run below the highest waiting number unasked, unless one still has to wait for the delay |
| `Converging.GapsClose` | src/mdfeed/mcast_client.py:150-240 | Convergence, in every run: after such a tick, once what was asked for has been served and the stream has been taken, whatever else happens, every missing run is there (ten thousand numbers of it), and with no longer run the expected number is past every frame that was waiting |
| `Abandoning.AcknowledgementGivesUpExactly` | src/mdfeed/mcast_client.py:194-206 | An acknowledgement passes a waiting frame without handing it over exactly when it reports missing numbers and the oldest number still held is above that frame |
| `Abandoning.GivenUpExactly` | src/mdfeed/mcast_client.py:125-208 | In every run and every continuation of it: a frame that waits is at the end neither waiting nor handed over exactly when, while it waited, such an acknowledgement came |
| `Abandoning.FateOfAWaitingFrame` | src/mdfeed/mcast_client.py:125-208 | Every single step leaves a waiting frame waiting, hands it over, or is such an acknowledgement |
| `Abandoning.WaitingFrameIsGivenUp` | src/mdfeed/mcast_client.py:197-206 | A run from the start in which this happens |
| `Subscribing.DrainHandsOverTheRun` | src/mdfeed/mcast_client.py:119-123 | Draining hands over exactly the waiting frames from the expected number up to the first missing one, in order, and removes just those |
| `Subscribing.RunsAreTheMaximalGaps` | src/mdfeed/mcast_client.py:150-173 | The runs that the request loop visits are all the maximal missing intervals below the bound, each once, in ascending order |
| `Recovery.DeliverKeeps` | src/mdfeed/mcast_client.py:109-117 | Handing on the frame with the expected number keeps the log exact: increasing, genuine, with no number missing that the publisher still holds |
| `Subscribing.McastSubscriber.DrainPending` | src/mdfeed/mcast_client.py:119-123 | The loop computes the draining of the state at entry |
| `Subscribing.McastSubscriber.Observe` | src/mdfeed/mcast_client.py:125-148 | One frame is treated as specified: buffered before the snapshot, a duplicate, the expected one with what it releases, or a gap with its requests; what that means is in Arriving, Counting and Requesting |
| `Subscribing.McastSubscriber.RequestMissing` | src/mdfeed/mcast_client.py:150-173 | The nested loops visit the maximal gaps and ask for each under the delay and timeout rules |
| `Requesting.AskedOnlyWhenDue` | src/mdfeed/mcast_client.py:161-172 | On every arrival, datagram, recovery frame or tick: a run is asked for only once its gap-fill delay or its timeout has passed; a request sets the time of asking to now, and only another request or the run's own receipt changes that time |
| `Requesting.AskedExactlyWhenDue` | src/mdfeed/mcast_client.py:150-173 | Every arrival asks for exactly those maximal missing runs, below the number it looks up to, whose gap-fill delay or timeout has passed |
| `Requesting.RequestsLieApart` | src/mdfeed/mcast_client.py:161-172 | In every sequence of arrivals two requests for one run, with no receipt for it in between, lie at least the timeout apart |
| `Subscribing.McastSubscriber.OnTcpFrame` | src/mdfeed/mcast_client.py:176-208 | A recovery frame is a snapshot value, the end of the snapshot, a receipt or a retransmitted frame |
| `Subscribing.McastSubscriber.EndSnapshot` | src/mdfeed/mcast_client.py:179-188 | The end of the snapshot discards what is older, sets the expected number, drains and asks for the first gap |
| `Subscribing.McastSubscriber.Acknowledge` | src/mdfeed/mcast_client.py:194-206 | A receipt with unavailable numbers counts them and jumps to the oldest one still held |
| `Subscribing.McastSubscriber.OnDatagram` | src/mdfeed/mcast_client.py:210-214 | The frames of a datagram are observed in order |
| `Subscribing.McastSubscriber.OnTimerTick` | src/mdfeed/mcast_client.py:238-240 | A tick asks again for what is missing below the highest waiting number |
| `Publishing.PublishKeepsInv` | cpp/src/mcast_publisher.cpp:184-193 | Publishing keeps: every number is published once and in order, and the datagrams sent and the one under way are together the history, none over its size unless it is a single frame |
| `Publishing.FlushKeepsInv` | cpp/src/mcast_publisher.cpp:194-225 | Sending the datagram keeps the publisher's invariant |
| `Publishing.PublishSends` | cpp/src/mcast_publisher.cpp:184-193 | A datagram is sent before a frame that would not fit with it, and only then |
| `Publishing.ResponseIsComplete` | cpp/src/mcast_publisher.cpp:270-284 | For a forward request inside the history, frames sent and numbers reported lost are exactly the requested numbers, capped at ten thousand, and each frame is the original one |
| `Publishing.ResponseCounts` | cpp/src/mcast_publisher.cpp:276-283 | The counts in the receipt are the numbers of frames sent and lost |
| `Publishing.RequestPastTheEnd` | cpp/src/mcast_publisher.cpp:273-278 | A request that starts past the history is answered with nothing sent and nothing lost |
| `Publishing.BackwardRequest` | cpp/src/mcast_publisher.cpp:274-277 | A backward request inside the history that is not empty by one is served as ten thousand numbers: frames sent and numbers reported lost are together all that the history has of them, each frame the original one |
| `Publishing.BackwardIsEmptyExactly` | cpp/src/mcast_publisher.cpp:270-284 | A backward request is answered with nothing sent and nothing lost exactly when it is empty by one or starts past the history |
| `Publishing.BackwardIsServed` | cpp/src/mcast_publisher.cpp:274-280 | An input: three frames, a ring for one, the numbers 2 to 0 asked for; frame 2 is sent and the receipt names 10001 as last |
| `Publishing.Publisher.OnFrame` | cpp/src/mcast_publisher.cpp:184-193 | One frame is cached, numbered, stored in its slot and put in the datagram, which is sent first if it would overflow |
| `Publishing.Publisher.StoreFrame` | cpp/src/mcast_publisher.cpp:188-190 | Frame s is in slot s mod size for every s still held: the slot of the number that falls out of the ring gets the new frame, every other number keeps its own |
| `Publishing.Publisher.FlushDatagram` | cpp/src/mcast_publisher.cpp:194-225 | The datagram goes out whole and starts anew |
| `Publishing.Publisher.OnSubscribe` | cpp/src/mcast_publisher.cpp:264-269 | A subscription is answered with every latest value and the number from which increments continue |
| `Publishing.Publisher.Collect` | cpp/src/mcast_publisher.cpp:276-277 | The loop reads exactly the frames of the asked range that the ring still holds, oldest first |
| `Publishing.Publisher.OnRetrans` | cpp/src/mcast_publisher.cpp:270-284 | A request is answered with the frames held and the receipt |
| `Feed.ViewsAgree` | cpp/src/mcast_publisher.cpp:186-187 | A latest-value table after more messages depends only on the table before |
| `FeedKeys.ViewIsLatest` | cpp/src/mcast_publisher.cpp:186-187 | The table holds, for every key that occurs and no other, type and payload of the last message with that key |
| `FeedKeys.KeyMeans` | cpp/include/mdfp/protocol.hpp:209-243 | The key is venue, colon and symbol without padding, of a trade of at least 64 bytes or a book top of at least 72; other messages have none |
| `FeedKeys.MessageCodes` | src/mdfeed/models.py:26-32 | The message types and the snapshot flag in numbers |
| `FeedKeys.SameKeyExactly` | cpp/src/mcast_publisher.cpp:186-187 | With no colon in a venue two messages share a key exactly when venue and symbol are the same |
| `FeedKeys.ColonsCollide` | cpp/src/mcast_publisher.cpp:186-187 | With colons they can collide: "C" at "A:B" and "B:C" at "A" |
| `WireFormats.FrameBytes` | src/mdfeed/protocol.py:57-63 | Every byte of a frame: "MDF1", version 1, type, flags, number and length in network order, the payload and its CRC-32 |
| `WireFormats.VerdictMeans` | src/mdfeed/protocol.py:110-126 | A buffer is undecided with less than a header or with a good header and not all the rest, and no frame with other first bytes than "MDF1" and 1 or a length over one mebibyte |
| `WireFormats.EncoderRefuses` | src/mdfeed/protocol.py:57-63 | A payload over one mebibyte is refused, and no other |
| `Framing.EncodedIsGood` | src/mdfeed/protocol.py:57-63 | Round trip: an encoded frame, whatever follows it, is judged to be that frame |
| `Framing.GoodIsEncoded` | src/mdfeed/protocol.py:110-135 | A buffer judged to be a frame begins with the encoding of that frame |
| `Framing.VerdictIsFinal` | cpp/include/mdfp/protocol.hpp:133-154 | A verdict on the front of the buffer does not depend on bytes that arrive later |
| `Framing.DamagedBodyRejected` | src/mdfeed/protocol.py:128-132 | A frame damaged within four bytes of its body outside the length field is never taken for a frame |
| `Framing.DamagedChecksumRejected` | src/mdfeed/protocol.py:129-132 | Any damage to the checksum field alone is counted as a checksum error |
| `Parsing.ChunkingIsIrrelevant` | src/mdfeed/protocol.py:98-149 | Frames emitted and checksum errors are those of one scan over the concatenated stream, however it was cut |
| `Parsing.NoFrameSkipped` | src/mdfeed/protocol.py:110-149 | Every complete valid frame of the stream was emitted, lies inside an emitted one, or lies in what the parser still holds while an earlier header waits for its rest |
| `Parsing.GarbageThenFrames` | src/mdfeed/protocol.py:137-149 | After any garbage, false headers and false frames included, that never passes for a frame or waits for more bytes, the parser emits exactly the frames encoded after it and counts one checksum error for each false frame |
| `Parsing.NoMagicIsGarbage` | src/mdfeed/protocol.py:137-149 | Bytes in which no magic starts are such garbage and hold no false frame |
| `Parsing.LeftoverIsBounded` | src/mdfeed/protocol.py:110-126 | What the parser still holds is the end of the stream and shorter than one maximal frame |
| `FrameParsers.FrameParser.Feed` | src/mdfeed/protocol.py:98-108 | One feed runs the parser to exhaustion and terminates |
| `FrameParsers.FrameParser.TryOne` | src/mdfeed/protocol.py:110-135 | One look at the buffer: frame, wait, or resynchronise |
| `FrameParsers.FrameParser.Resync` | src/mdfeed/protocol.py:137-149 | Resynchronising jumps to the next magic or keeps three bytes |
| `FrameParsers.TryOneCounts` | src/mdfeed/protocol.py:110-149 | One look counts a resynchronisation exactly when there is no frame in front, and a checksum error exactly when only the checksum was wrong |
| `FrameParsers.CppFrameParser.Feed` | cpp/include/mdfp/protocol.hpp:109-124 | The parser with read offset emits the same frames and keeps the same unread bytes and counters as the other one, feed by feed |
| `FrameParsers.CppFrameParser.TryOne` | cpp/include/mdfp/protocol.hpp:133-154 | The same decision on the bytes from the read offset on |
| `FrameParsers.CppFrameParser.Resync` | cpp/include/mdfp/protocol.hpp:157-173 | The search loop finds the first magic, and the offset moves as the other parser cuts |
| `FrameParsers.CppFrameParser.Compact` | cpp/include/mdfp/protocol.hpp:175-182 | Compacting never changes the unread bytes and bounds the consumed front |
| `FrameParsers.SequenceTracker.Observe` | cpp/include/mdfp/protocol.hpp:196-205 | One number: first, in order, duplicate, or a gap of known size |
| `FrameParsers.NothingUncounted` | src/mdfeed/protocol.py:166-181 | For any arrivals the next expected number is one above the highest seen, and every number from the first seen to it was received in order or counted lost |
| `FrameParsers.GapsAreJumps` | src/mdfeed/protocol.py:166-181 | The gaps reported are the numbers more than one above all before them, the duplicates those not above them |
| `Crc32.SlicingBy8` | cpp/include/mdfp/crc32.hpp:41-54 | The slicing-by-8 loops compute the bit-at-a-time reflected CRC-32 (section 8 of RFC 1952) of every byte string, from every start value |
| `WireFormats.CheckValue` | cpp/include/mdfp/crc32.hpp:41-54 | The checksum of the digits one to nine is CBF43926, the value by which this CRC-32 is known |
| `Crc32.MakeTables` | cpp/include/mdfp/crc32.hpp:15-26 | The generated tables are the bit-serial shifts of every byte by one to eight bytes |
| `Crc32.FirstEntry` | cpp/include/mdfp/crc32.hpp:17-21 | Eight conditional shifts give the first table |
| `Crc32.FillColumn` | cpp/include/mdfp/crc32.hpp:22-24 | The recurrence fills the other seven tables |
| `Crc32.Round` | cpp/include/mdfp/crc32.hpp:44-51 | One round of eight bytes through eight tables |
| `Crc32.TailByte` | cpp/include/mdfp/crc32.hpp:52 | The byte-wise tail step |
| `Crc32.ShiftByTable` | cpp/include/mdfp/crc32.hpp:24 | One byte of shifts is the high bytes moved down and the low byte folded in |
| `Crc32.WordEnters` | cpp/include/mdfp/crc32.hpp:45-48 | Four bytes enter the register as one little-endian word |
| `Crc32.ShiftsByBytes` | cpp/include/mdfp/crc32.hpp:47-48 | A shifted word is the xor of its shifted bytes |
| `Crc32.CrcChains` | cpp/include/mdfp/crc32.hpp:41-43 | The checksum of a concatenation chains |
| `Crc32.BurstDetected` | cpp/include/mdfp/crc32.hpp:41-54 | Strings that differ only inside a window of at most four bytes have the same checksum only if they are equal |
| `LedgerProofs.RunKeeps` | src/mdfeed/ledger.py:124-406 | After any operations, with any totals and notices: 0 <= filled <= quantity, FILLED exactly when live and full, no fills on unsent or rejected orders, the fills log sums to every order's quantity and amount, and client ids name one order each |
| `LedgerProofs.StepKeeps` | src/mdfeed/ledger.py:124-406 | Each operation keeps that invariant |
| `LedgerProofs.ReconciliationIsExact` | src/mdfeed/ledger.py:239-306 | A report that gives out a positive increase makes the line's filled quantity and amount exactly the broker's beyond the baseline, despite rounding; one that shows unexplained orders changes nothing; one that gives nothing out books no fill |
| `LedgerProofs.DistributionIsExact` | src/mdfeed/ledger.py:287-305 | Giving out an increase that fits gives out all of it, quantity and amount, however parts are rounded |
| `LedgerProofs.DistributionFillsAll` | src/mdfeed/ledger.py:287-305 | An increase as large as the room fills every open order |
| `LedgerProofs.FinalStaysForever` | src/mdfeed/ledger.py:287-290 | Whatever follows, an order in a final state stays as it is |
| `LedgerProofs.NotFinalCanChange` | src/mdfeed/ledger.py:239-306 | An order that is not final can still be changed by some send result or report |
| `LedgerProofs.ClosedDayIsFrozen` | src/mdfeed/ledger.py:375-405 | After a day is closed an order that was in the book then is the same in every future exactly when it was among the day's newest hundred thousand or already final |
| `ClosedDays.ClosedDayKeepsItsFills` | src/mdfeed/ledger.py:375-405 | The fills of a day of at most a hundred thousand orders are, once it is closed, the same in every future in which no order is placed on it |
| `ClosedDays.PlacedOrderChangesTheDay` | src/mdfeed/ledger.py:124-139 | An order placed on any day, closed or not, is accepted by the ledger and can be filled, which changes the day |
| `ClosedDays.StepBooksOpen` | src/mdfeed/ledger.py:124-406 | Every operation only adds fills, of orders that were not final, and keeps every order on its day |
| `LedgerLimits.OldestOrderStaysOpen` | src/mdfeed/ledger.py:381 | For every number of orders beyond a hundred thousand there is a run in which the day is closed, its oldest order is still open, and a later report changes it |
| `LedgerProofs.CloseMakesFinal` | src/mdfeed/ledger.py:388-391 | Closing leaves none of the day's newest hundred thousand orders open |
| `LedgerProofs.ScopeIsTheWholeDay` | src/mdfeed/ledger.py:381 | In a day of at most a hundred thousand orders closing looks at all of them |
| `LedgerProofs.ClosingAgainReturnsTheResult` | src/mdfeed/ledger.py:378-380 | Closing again, whatever happened since, returns the stored result and changes nothing |
| `LedgerProofs.ClosingReportBalances` | src/mdfeed/ledger.py:392-401 | Filled plus expired quantity is the quantity of all sent orders |
| `LedgerProofs.HoldingsFollowTheLog` | src/mdfeed/ledger.py:340-348 | The expected holding is the baseline plus the signed fills log after any operations |
| `LedgerProofs.ClientIdIsIdempotent` | src/mdfeed/ledger.py:128-131 | The same client id returns the first order and changes nothing, whatever happened in between |
| `Ledger.Ledger.NewOrder` | src/mdfeed/ledger.py:124-139 | The new order, or the one the client id already names |
| `LedgerRules.NewOrderMeans` | src/mdfeed/ledger.py:124-139 | A known client id gives back its order; else, unless quantity or price is refused, a row with what the draft says is written, not sent yet, and nothing else changes |
| `Ledger.Ledger.RecoverPending` | src/mdfeed/ledger.py:150-158 | At start-up orders in submission become of unknown fate; the count is the number of those orders |
| `Ledger.Ledger.ApplyTotals` | src/mdfeed/ledger.py:239-306 | The report is applied as specified: orders of unknown fate first, then fills |
| `Ledger.Ledger.Distribute` | src/mdfeed/ledger.py:291-305 | The distribution loop |
| `Ledger.Ledger.ApplyNotice` | src/mdfeed/ledger.py:308-335 | A notice is treated as specified: applied, a duplicate, unmatched or ignored; what that means is in Notices |
| `Notices.NoticeCountsOnce` | src/mdfeed/ledger.py:318-319 | Once a notice was applied, one with the same key is a duplicate in every future, whatever else it says, and changes nothing |
| `Notices.NoticeApplies` | src/mdfeed/ledger.py:318-335 | A notice is applied exactly when its key is new and the first order of the day with its number, zeros in front aside, is open and has room; then that order gains quantity and quantity times price, and one fill and one notice are written |
| `Notices.NoticeElse` | src/mdfeed/ledger.py:318-326 | A key seen before is a duplicate, a number of no order of the day is unmatched, and a notice that is not applied changes nothing |
| `Notices.LaggingTotals` | src/mdfeed/ledger.py:277-284 | Totals that agree with the ledger as it was before a notice report nothing for sixty seconds, and then exactly the fills that are too many |
| `LedgerRules.DoubtIsResolved` | src/mdfeed/ledger.py:255-273 | A report and an order of unknown fate: sent if the broker shows just as much more as is in doubt, not sent thirty seconds on if it shows nothing more, and nothing at all changes if it shows anything else |
| `LedgerRules.IncreaseIsGivenOldestFirst` | src/mdfeed/ledger.py:287-305 | An increase fills the oldest open orders first, each before the next gets anything, with one fill each and rounded parts of the amount, the last taking the rest |
| `LedgerRules.FillBreaksMean` | src/mdfeed/ledger.py:277-290 | An increase larger than what is open, or negative, books nothing and is reported with its size |
| `LedgerRules.RestartMeans` | src/mdfeed/ledger.py:150-158 | A restart makes every order that was being sent one of unknown fate and changes nothing else |
| `LedgerRules.SubmitResultMeans` | src/mdfeed/ledger.py:141-148 | What came of sending is noted on that order only |
| `LedgerRules.BaselinesAreTakenOnce` | src/mdfeed/ledger.py:214-236 | Baselines of a line and of a day are taken once |
| `Ledger.Ledger.ExpectedHoldings` | src/mdfeed/ledger.py:340-348 | The two passes give each symbol's expected holding; zero holdings have no entry |
| `Ledger.Ledger.CloseDay` | src/mdfeed/ledger.py:375-405 | Closing: the stored result, a refusal that names the unresolved orders newest first, or expiry and summary |
| `LedgerRules.ClosingMeans` | src/mdfeed/ledger.py:375-391 | Closing is refused for a closed day, for orders not sent or of unknown fate, and for open breaks; else every open order looked at expires and no other changes |
| `LedgerRules.SummaryMeans` | src/mdfeed/ledger.py:392-401 | The report counts the orders looked at by what became of them and adds up what they filled and left open |
| `LedgerRules.ScopeMeans` | src/mdfeed/ledger.py:381 | An order is looked at exactly when fewer than a hundred thousand of its day came after it |
| `Ledger.Ledger.UnresolvedOrders` | src/mdfeed/ledger.py:381-384 | The unresolved orders of a day, newest first |
| `ContestProofs.HonestBooksPass` | src/mdfeed/contest.py:284-321 | The audit of any books reached through invitations, sign-ups and orders finds nothing |
| `ContestProofs.PassingMeansAgreement` | src/mdfeed/contest.py:284-321 | For any books: no finding means an unbroken chain and every account, position and filled order as the journal replays |
| `ContestProofs.AuditIsExact` | src/mdfeed/contest.py:284-321 | For any books: the audit finds nothing exactly when the chain is unbroken and the tables are what the journal replays |
| `ContestProofs.EditedRowIsReported` | src/mdfeed/contest.py:291-294 | Rewriting one row's content but not its hash is reported at that row, exactly when the content differs |
| `ContestProofs.TipCommits` | src/mdfeed/contest.py:90-91 | Two unbroken journals of one length with the same last hash are the same |
| `ContestProofs.SpellingIsInjective` | src/mdfeed/contest.py:90-91 | There is an injective chain function, as the two results above ask for |
| `ContestProofs.CutJournalIsReported` | src/mdfeed/contest.py:306-320 | Rows cut off the end of the journal of honest books are reported exactly when one of them is not the deposit of a starting cash of zero |
| `ContestProofs.RunStaysSolvent` | src/mdfeed/contest.py:202-224 | With fee and tax together at most the whole, no account, position or cost ever becomes negative |
| `ContestMoney.MoneyIsTheFlows` | src/mdfeed/contest.py:178-224 | In every run: amount, fee and tax of every order row are right, rounded down; every account is the starting cash and what its filled rows paid and brought, fee and tax taken off; every holding is shares bought less shares sold |
| `ContestMoney.PlacedMeans` | src/mdfeed/contest.py:185-227 | An order is given back, refused, recorded or filled: filled exactly when there is a price and the cash or the shares are there, and then cash, shares, cost and one journal row change as its row says |
| `ContestMoney.SignedUpMeans` | src/mdfeed/contest.py:150-164 | A sign-up takes an unused code and a new nickname and makes the next participant with the starting cash |
| `ContestMoney.OneInvitationOneParticipant` | src/mdfeed/contest.py:150-164 | In every run every participant came with an invitation of their own, and no nickname is there twice |
| `ContestProofs.CostIsProportional` | src/mdfeed/contest.py:218-220 | A sale leaves the held shares' proportional part of the cost, rounded up |
| `ContestProofs.OrderIsIdempotent` | src/mdfeed/contest.py:192-195 | A repeated client id returns the first order and changes nothing, whatever happened in between |
| `Contest.ContestLedger.SignUp` | src/mdfeed/contest.py:150-164 | Sign-up with its two refusals, the deposit and its journal row |
| `Contest.ContestLedger.Place` | src/mdfeed/contest.py:185-227 | An order as specified: repeated, refused, rejected and recorded, or filled and journaled; what that means is in ContestMoney |
| `Contest.ContestLedger.Journal` | src/mdfeed/contest.py:129-135 | A row is appended that continues the chain |
| `Contest.ContestLedger.ReplayJournal` | src/mdfeed/contest.py:289-304 | The walk finds the first broken row or the replay of the whole journal |
| `Contest.ContestLedger.ReplayRow` | src/mdfeed/contest.py:294-304 | One row of the walk: what it adds to cash, shares and fills |
| `Contest.ContestLedger.CashBreaks` | src/mdfeed/contest.py:306-309 | Exactly the accounts whose cash differs from the replay |
| `Contest.ContestLedger.PositionBreaks` | src/mdfeed/contest.py:310-315 | Exactly the holdings whose quantity differs from the replay |
| `Contest.ContestLedger.OrderBreaks` | src/mdfeed/contest.py:316-320 | Exactly the orders that are filled in only one of table and journal, or differ |
| `Contest.ContestLedger.Integrity` | src/mdfeed/contest.py:284-321 | The list holds exactly the findings, each once and in the order of the source; it is empty exactly when tables and journal agree |
| `Gateway.StreamBacklogIsConsecutive` | cpp/src/tcp_gateway.cpp:486-491 | In every run, for every filter, a stream queue holds consecutive numbers up to just below the next one, or below the frame refused on closing; passed on, waiting, dropped and refused add up to accepted |
| `Gateway.LossIsExactlyTheDrops` | cpp/src/tcp_gateway.cpp:457-491 | Once drained, the first number received and the messages the receiver reports lost are together exactly the frames dropped here; filtered frames never show as a gap |
| `Gateway.ConflationConverges` | cpp/src/tcp_gateway.cpp:471-485 | In conflate mode every wanted key that no drop left stale is at its newest value once the queue has drained; at most as many keys are stale as frames were dropped; keyless frames go out once in order; numbers have no gap and every frame is accounted for |
| `GatewayFilter.OfferAccepts` | cpp/src/tcp_gateway.cpp:467-491 | A frame is accepted exactly when the subscriber is open and the frame has no key, no filter is set or its key is in the filter; only a full queue drops, and one frame; it closes the subscriber exactly when that is a drop too many |
| `GatewayFilter.AcceptedAreChosen` | cpp/src/tcp_gateway.cpp:467-491 | In every run: what was accepted since the mode last changed is exactly the bus frames that the filter of their moment let through while the subscriber was open, in order |
| `GatewayFilter.NothingOutsideTheFilter` | cpp/src/tcp_gateway.cpp:467-557 | In every run: a frame that waits or is on the wire came from the bus at a moment when the filter let it through |
| `GatewayFilter.ClosedExactly` | cpp/src/tcp_gateway.cpp:457-466 | In every run: a subscriber is closed exactly when more frames were dropped than the limit allows or its connection broke |
| `Gateway.StepKeepsInv` | cpp/src/tcp_gateway.cpp:457-619 | Every offer, send and mode switch keeps the invariants of both modes |
| `Gateway.RunKeepsInv` | cpp/src/tcp_gateway.cpp:457-619 | So does every run |
| `GatewaySubscriber.Subscriber.Fanout` | cpp/src/tcp_gateway.cpp:467-493 | One frame for one subscriber as specified: filtered, merged, numbered, queued, or refused after a drop too many; which frames those are is in GatewayFilter |
| `GatewaySubscriber.Subscriber.DropOverflowed` | cpp/src/tcp_gateway.cpp:457-466 | The oldest entry goes, and its waiting value with it |
| `GatewaySubscriber.Subscriber.Flush` | cpp/src/tcp_gateway.cpp:535-565 | For any sequence of send results the loop leaves exactly the state that the results determine, buffer counters included |
| `GatewaySubscriber.FlushingMoves` | cpp/src/tcp_gateway.cpp:535-565 | Flushing only moves frames on in queue order, counts every one, and never leaves frames waiting while the buffer is empty |
| `GatewaySubscriber.FlushingHolds` | cpp/src/tcp_gateway.cpp:535-565 | However many bytes the socket takes at a time: while bytes are left in the buffer, exactly the frames in it are not yet counted as sent |
| `GatewaySubscriber.Subscriber.Coalesce` | cpp/src/tcp_gateway.cpp:537-557 | Waiting frames are gathered until the buffer is large enough |
| `GatewaySubscriber.Subscriber.ApplySubscribe` | cpp/src/tcp_gateway.cpp:580-619 | A request sets the filter, or takes it away if it names no symbols, and if it names the other mode clears the queues |
| `RetentionProofs.OnlyArchivedIsDeleted` | src/mdfeed/retention.py:403-504 | Under every interleaving of inserts and batches, with failing records too: every row ever deleted is part of what a strict receipt for its day proves, the other table has a receipt for that day, and it is older than every cutoff used |
| `RetentionProofs.BatchDeletesArchived` | src/mdfeed/retention.py:448-478 | So for one batch, all its rows together |
| `RetentionProofs.ReceiptsAreStrict` | src/mdfeed/retention.py:206-272 | A receipt in use comes from a file that passes every check for that table and day |
| `RetentionProofs.AllowedMeans` | src/mdfeed/retention.py:379-395 | Deletion is allowed up to day end exactly when every day from the first with rows to end, the first not covered for both tables, holds what its record or receipt says |
| `RetentionRules.BlockedMeans` | src/mdfeed/retention.py:379-395 | Why deletion is blocked: no rows, a first day without both receipts, or a covered day that no longer holds what it must |
| `RetentionRules.ReceiptMeans` | src/mdfeed/retention.py:206-272 | A day has a receipt exactly when some file says that all its rows were copied, fetched back and found the same; the last such file counts |
| `RetentionRules.DaysAreDays` | src/mdfeed/retention.py:174-175 | A day is 86,400,000,000 microseconds |
| `RetentionRules.BatchTakes` | src/mdfeed/retention.py:474-475 | A batch takes at most fifty thousand rows older than its cutoff, and fewer only when no more are old enough |
| `RetentionProofs.PickedFromFloor` | src/mdfeed/retention.py:449-475 | A batch takes rows of the first day only |
| `RetentionProofs.LateRowBlocksItsDay` | src/mdfeed/retention.py:362-376 | Once a covered day holds more rows than it may, no row of that day is deleted in any future, in either table |
| `RetentionProofs.LateRowOverfills` | src/mdfeed/retention.py:362-376 | Any row that arrives in a day that was as it must be makes it so |
| `RetentionProofs.GoneIsPartOfArchive` | src/mdfeed/retention.py:476-478 | From any state whose deletions are accounted for: while no record is lost, all that was ever deleted of every day, repeated rows counted, is part of its archive |
| `Digests.InjectiveDigestExists` | src/mdfeed/retention.py:288-320 | Whatever 64-digit texts the contents in use have, different ones for different contents of a table: some injective digest gives them those texts |
| `RetentionProofs.LostRecordExactly` | src/mdfeed/retention.py:474-486 | The exact condition, for every batch: every future without further lost records keeps what is gone of every day within its archive if and only if this batch's record is written or it deletes nothing |
| `RetentionProofs.DayCanBeDeleted` | src/mdfeed/retention.py:448-478 | A day that may be deleted can be deleted entirely, batch after batch |
| `RetentionProofs.FailedRecordDeletesTwice` | src/mdfeed/retention.py:476-486 | An input: with a failing record an archived row and a later equal one are both deleted against one receipt |
| `RetentionProofs.RowsAreConserved` | src/mdfeed/retention.py:474 | What is left and what is gone is what there was and what arrived |
| `Pruner.Pruner.RetentionCutoff` | src/mdfeed/retention.py:379-395 | The loop over covered days computes the specified cutoff |
| `Pruner.Pruner.SourceDayProof` | src/mdfeed/retention.py:288-320 | Rows of a day counted and digested |
| `Pruner.Pruner.SourceMatches` | src/mdfeed/retention.py:362-376 | The day against its record or, without one, its receipt |
| `Pruner.Pruner.VerifiedReceipts` | src/mdfeed/retention.py:252-272 | The strict receipts of a table by day |
| `Pruner.Pruner.DeleteAndRecord` | src/mdfeed/retention.py:474-478 | Deletion, then the record; a failure in between leaves the rows deleted |
| `Pruner.Pruner.PruneBatch` | src/mdfeed/retention.py:447-490 | One batch is one step of the run, and stops exactly when no cutoff is allowed |
| `Pruner.Pruner.FindCutoff` | src/mdfeed/retention.py:453-473 | How far a batch may go, or the reason it may not; missing receipts below the archive floor are reported as a changed first day |
| `Pruner.Pruner.PruneTable` | src/mdfeed/retention.py:441-496 | The batches of a table are a run with exactly the arrivals in between, which ends in time only when no row is left that the last batch might have taken; the count is the rows deleted unless a write failed |
| `Pruner.Pruner.Prune` | src/mdfeed/retention.py:403-504 | The whole job, in numbers: every row newly gone is older than the retention days before now and than the archive floor, with and without receipts; without receipts no row older by a second more is left when it ends in time; the counts are the rows gone; with receipts it deletes only archived rows, and refused it deletes nothing |
| `WebSocketMessages.MessagesArrive` | src/mdfeed/wsproto.py:79-148 | Any messages in any pieces with control messages in between, any keys and length forms, the bytes cut in any way: the decoder yields exactly those messages in the order of completion and is idle again (sections 5.2 to 5.4 of RFC 6455) |
| `WebSocketMessages.OneFrameArrives` | src/mdfeed/wsproto.py:45-67 | What the encoder makes is decoded as that message exactly when it is within the size limit, masked as expected and no continuation |
| `WebSocketErrors.StopsAtTheFirstBadFrame` | src/mdfeed/wsproto.py:79-148 | Whole messages, then a frame that is too large, masked against the rule or a continuation of nothing, and then anything, the bytes cut in any way: the decoder yields those messages and stops there with the reason |
| `WebSocketErrors.TakeMeans` | src/mdfeed/wsproto.py:88-105 | Each frame taken: control frames are messages of their own at any time, a continuation adds to what has begun, any other final frame is a message, any other first piece begins one and forgets what had begun |
| `WebSocketMessages.EncodeFrame` | src/mdfeed/wsproto.py:45-67 | The bytes of a whole frame with the shortest length form; an oversized control frame is refused |
| `WireFormats.HeadBytes` | src/mdfeed/wsproto.py:45-67 | Every byte of a head: final bit, reserved bits, opcode, mask bit and the length in one of three forms (section 5.2 of RFC 6455) |
| `WireFormats.PayloadBytes` | src/mdfeed/wsproto.py:45-67 | After the head the key, if there is one, and the payload combined with it byte by byte (section 5.3 of RFC 6455) |
| `WireFormats.WholeIsShortest` | src/mdfeed/wsproto.py:45-67 | A whole frame takes the shortest of the three length forms |
| `WireFormats.HelloMasked` | src/mdfeed/wsproto.py:45-67 | The masked example of section 5.7 of RFC 6455 |
| `WireFormats.DecoderLimits` | src/mdfeed/wsproto.py:107-148 | Opcodes 8 to 10 are control messages; a payload over 16 MiB is refused and no smaller one |
| `WebSocketMessages.FrameDecoder.ParseFrame` | src/mdfeed/wsproto.py:107-148 | One frame from the front of the buffer |
| `WebSocketMessages.FrameDecoder.Feed` | src/mdfeed/wsproto.py:79-105 | The loop yields every message that can be completed and stops at the first violation |
| `WebSocket.WireParses` | src/mdfeed/wsproto.py:107-148 | Parsing inverts the wire format for every frame, reserved bits, length form and key; only size and masking are refused |
| `WebSocket.ChunkingIsIrrelevant` | src/mdfeed/wsproto.py:79-105 | Any cutting of a stream gives the messages and the error of the whole |
| `WebSocket.VerdictStays` | src/mdfeed/wsproto.py:107-148 | A verdict on the front of the buffer does not change with later bytes |
| `SharedRing.EveryPollIsSound` | cpp/include/mdfp/ringbuffer.hpp:70-104 | In every interleaving of single stores and loads: the cursor's advance is returned plus skipped plus torn, items come in order, and an item whose slot no push had begun to overwrite by the tail load is accepted with exactly the pushed bytes |
| `SharedRing.LappedIsRejected` | cpp/include/mdfp/ringbuffer.hpp:93-102 | An item lapped by a completed push before its tail was loaded is rejected; an item is given up as torn only if its slot was taken over |
| `RingAccount.SkippedWereLapped` | cpp/include/mdfp/ringbuffer.hpp:70-104 | In every interleaving: each item from the reader's start to its cursor was decided, or had been lapped by a whole round of published items |
| `SharedRing.StepKeepsInv` | cpp/include/mdfp/ringbuffer.hpp:70-104 | Every store and every load keeps the invariant |
| `SharedRingRace.TornItemCanBeAccepted` | cpp/include/mdfp/ringbuffer.hpp:96-101 | For every capacity and every item number there is a run in which that item is accepted with bytes of the push that is overwriting it |
| `SharedRingRace.AcceptedExactlyUnlessOverwritten` | cpp/include/mdfp/ringbuffer.hpp:93-102 | An accepted item is sure to have the pushed bytes if and only if it was not, at its tail load, the very item that a push under way overwrites |
| `RingBuffer.RingBuffer.Push` | src/mdfeed/ringbuffer.py:77-88 | A push, also after one that stopped half way, stores the item in its slot and keeps the last round of the others; too large a payload is refused |
| `RingBuffer.RingBuffer.BeginPush` | src/mdfeed/ringbuffer.py:83-86 | The stores of a push before its tail, the payload copied as far as it got: from here on only the item being overwritten is no longer promised |
| `RingBuffer.RingReader.Poll` | src/mdfeed/ringbuffer.py:113-142 | A poll hands over exactly the items from the cursor on that the ring still holds, in order; only the item a push is overwriting may be wrong or torn |
| `RingBuffer.RingReader.Collect` | src/mdfeed/ringbuffer.py:126-142 | The loop reads item after item; at most the first can be lost |
| `RingBuffer.RingReader.ReadSlot` | src/mdfeed/ringbuffer.py:127-140 | A slot that is intact is copied exactly |
| `RingBuffer.RingReader.CatchUp` | src/mdfeed/ringbuffer.py:119-124 | A lapped reader jumps to the oldest item and counts what it skips |
| `Clock.OffsetIsWindowMinimum` | src/mdfeed/clock.py:45-68 | With no gap longer than the window the offset is a sample younger than the window and no greater than any sample of the window less one bucket |
| `Clock.SamplesAreYoung` | src/mdfeed/clock.py:45-53 | Whatever the gaps, only samples younger than the window count |
| `Clock.RecentSamplesCount` | src/mdfeed/clock.py:45-53 | A sample taken in time counts for the window less one bucket |
| `Clock.KeptExactlyWhenInTime` | src/mdfeed/clock.py:45-53 | The newest sample will count at every later moment up to the window less one bucket exactly when its reading came less than a window and a bucket after the start of the bucket then current |
| `Clock.FallsBehindExactly` | src/mdfeed/clock.py:45-53 | The guard before the call: the estimator falls behind exactly when a reading comes a window and a bucket or more after the start of the current bucket |
| `Clock.LateStartFallsBehind` | src/mdfeed/clock.py:45-53 | An input for every estimator: a first reading two windows late, whose sample is then dropped before its time |
| `Clock.OffsetIsLeast` | src/mdfeed/clock.py:65-68 | The offset is the least of the samples still counted |
| `Clock.SkewEstimator.Roll` | src/mdfeed/clock.py:45-53 | The loop turns the buckets as specified |
| `Clock.SkewEstimator.Observe` | src/mdfeed/clock.py:55-63 | The corrected delay is the sample less the offset and never negative |
| `Clock.SkewEstimator.OffsetUs` | src/mdfeed/clock.py:65-68 | The least value of the buckets |

## Left out

- Sockets, event loops, TLS, HTTP, process supervision and signals: their effects are nondeterministic steps.
- SQL and files: tables are maps, sequences and multisets, a transaction is one step; the ledger's statements outside an
  explicit transaction are taken as one step too. The event tables, messages and update times are not kept.
- JSON text: messages that carry JSON are datatypes; malformed JSON is not modelled.
- The publisher's fault injection (dropping, holding back and doubling datagrams on purpose): covered by the channel,
  which may do all of that at any time.
- The publisher's frame counter as a 64-bit number: it does not wrap in the model; the arithmetic of requests does.
- Throwing callbacks, resynchronisation callbacks and `resync_count` as a function of the stream: it depends on chunking.
- Latency, trade and heartbeat statistics, health reports, `reconcile_holdings`, `keys_to_watch`, `notional_today`,
  the leaderboard and the halt switch: easy members.
- Entitlements and their ACK frames, the snapshot a gateway sends on connecting, and the rotation of the starting
  subscriber (`for_each_sub_rotated`): the queues are modelled for one subscriber at a time.
- Exchange and broker adapters, indicators, backtests and quality checks.
- GatewaySubscriber.Subscriber.Flush: the socket buffer is counted in bytes and frames; which bytes of a frame a partial
  send took is not modelled.
- Ledger.Ledger.ApplyTotals: Python's rounding of an order's part of an amount is an arbitrary function; the results hold
  for every rounding.
- Contest.ContestLedger.CreateInvites: the random codes are given; a code that already exists is kept, where the database would
  refuse it.
- Pruner.Pruner.Prune: the time budget is the number of rounds it is given; the exact number of a day's rows that the database deletes
  first is its choice. Time stamps are integers of microseconds.
- Pruner.Pruner.SourceDayProof: the order of a day's rows and their CSV form are inside the digest function.
- Clock.SkewEstimator.Observe: delays and times are real numbers, without rounding.
- RingBuffer.RingBuffer.Push: the counter does not wrap; header fields are numbers, not bytes.
- RingBuffer.RingReader.Poll: the source reads a slot inside the loop; here that is a method of its own, and the cursor is moved
  after the loop. A push under way is one that has made its stores up to some part of the payload.
- WebSocketMessages.EncodeFrame: the random key is given. The opening handshake is not part of this model.
- WebSocket frames that violate rules the decoder does not enforce (long or fragmented control frames, a data message that
  begins inside another) are decoded as the code does (`WebSocketErrors.TakeMeans`), without a claim that they should be.
