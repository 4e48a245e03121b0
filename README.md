# QUIC streams map, modelled in Dafny

This project models the streams map of a QUIC connection, as it appears in
quic-go's `streamsMap`. The map is the table that creates, looks up, counts,
retires and schedules the streams of one connection:

- **Streams of both sides.** A frame from the peer can name a stream, and
  `GetOrOpenStream` returns it. If the stream is new, the frame also opens
  every stream the peer skipped. Streams the peer may not open are refused.
- **Own streams.** `OpenStream` hands out this endpoint's next stream
  identifier.
- **Stream counts.** Two counters track open streams. Both are bounded: the
  peer's streams by `maxIncomingStreams`, a server's own streams by the limit
  from the peer's transport parameters.
- **Deletion.** `DeleteClosedStreams` removes the finished streams and
  retires their identifiers for good. It moves the round-robin cursor back
  by the number of streams removed before it.
- **Scheduling.** `RoundRobinIterate` offers streams to the packet
  scheduler. The crypto stream (1) and the header stream (3) come first.
  Then every other open stream is offered once, from the cursor, with
  wrap-around. The callback can stop the pass early.
- **Accepting.** `AcceptStream` hands out the lowest peer stream not yet
  accepted that is still open.
- **Closing.** `CloseWithError` registers a terminal error that every later
  open and accept returns.

The implementation file `streams_map.go` is not part of this model. The
behaviour modelled is the one that `streams_map_test.go` asserts, and each
member below cites the test lines it follows.

The model has two layers:

- **Table layer.** `table.dfy` holds the whole state as a value, `StreamTable.Table`. Each operation is a function from the old table to the new table and the caller's result.
- **Class layer.** `streams_map.dfy` holds the same state as the fields of the class `Multiplexer.StreamsMap`. Its methods update the fields in place.
  - Each method is proved to have exactly the effect of its table function: `State() == Op(old(State()))`.
  - Each method keeps the invariant `Valid()`.
  - Deleting and scheduling are loops over the open list, proved with loop invariants against the table functions.

The other files:

- `invariant.dfy` proves that every operation keeps the table invariant. The invariant says:
  - the open list and the map hold the same streams, each once;
  - the counters count the open streams of each parity;
  - exactly the identifiers below the next ones of each side are open or retired;
  - the accept queue is ascending;
  - the peer's counter respects its limit;
  - the round-robin cursor lies within the open list or just past its end.
- `round_robin.dfy` defines the scheduling pass and proves its properties.
- `properties.dfy` proves the promises the tests make about lookups, limits, deletion and accepting.
- `scenarios.dfy` works two of the tests' concrete runs out on the model.

## Model

| member | source | states |
|---|---|---|
| Multiplexer.StreamsMap.constructor | streams_map_test.go:19-25 | A new map has no streams, no transport parameters, no error and an empty accept queue, and it satisfies the invariant. |
| Multiplexer.StreamsMap.GetOrOpenStream | streams_map_test.go:47-126 | The table and the result are exactly GetOrOpen's, and the invariant holds. GetOrOpen returns an open stream, returns nothing for a retired identifier, refuses an identifier the peer may not open, refuses a sweep past the limit, or opens the peer streams up to `id`. |
| Multiplexer.StreamsMap.OpenPeerStreams | streams_map_test.go:86-92 | The loop opens every peer identifier from the next expected one up to `id`, in ascending order. It appends each one to the open list and the accept queue, books it on its parity's counter, and moves the next expected identifier past `id`. |
| Multiplexer.StreamsMap.PutStream | streams_map_test.go:47-53 | The step both open paths take (also streams_map_test.go:135-143) for an identifier not yet in the map: it stores a fresh stream, appends it to the open list and adds one to the counter of its parity. |
| Multiplexer.StreamsMap.OpenStream | streams_map_test.go:130-198 | The table and the result are exactly Open's, and the invariant holds. Open returns the closing error, refuses for too many open streams at the own limit, or opens the next own identifier. |
| Multiplexer.StreamsMap.UpdateTransportParameters | streams_map_test.go:135-143 | Only a server's limit on its own streams changes, and the invariant holds. |
| Multiplexer.StreamsMap.CloseWithError | streams_map_test.go:145-150 | The first error registered stays, later ones change nothing, and the invariant holds. |
| Multiplexer.StreamsMap.AcceptStream | streams_map_test.go:259-384 | The table and the result are exactly Accept's, and the invariant holds. Accept returns the error, or returns nothing when no open stream is waiting. Otherwise its loop drops the waiting streams that were deleted before being accepted, and it hands out and removes the first open one. |
| Multiplexer.StreamsMap.MarkFinished | streams_map_test.go:481-490 | Only the finished flag of stream `id` changes, and the invariant holds. |
| Multiplexer.StreamsMap.DeleteClosedStreams | streams_map_test.go:492-545 | The new state is exactly DeleteClosed of the old one, and the invariant holds. |
| Multiplexer.RemoveFinished | streams_map_test.go:512-545 | The first pass of deletion. The map loses exactly the finished streams of the open list, those identifiers are retired, and the counters become the parity counts of the surviving streams. |
| Multiplexer.Compact | streams_map_test.go:618-651 | The second pass of deletion. The kept list is the surviving streams in their old order. The cursor moves back by the number of finished entries before it. |
| Multiplexer.StreamsMap.Offer | streams_map_test.go:653-675 | The loop offers streams exactly as the pass function Run does: skipped identifiers and missing streams are stepped over, and a Stop or a Fail ends it. |
| Multiplexer.StreamsMap.OfferLap | streams_map_test.go:574-586 | The loop walks the open list once, from position `start` with wrap-around, exactly as Run does over the rotated list, stepping over streams 1 and 3. |
| Multiplexer.StreamsMap.RoundRobinIterate | streams_map_test.go:547-675 | The streams offered, the error and the new cursor are exactly Iterate's, and the invariant holds, so the cursor stays within the open list. Only the cursor changes. |
| StreamIds.Sweep | streams_map_test.go:86-92 | The identifiers a request for `upTo` opens are exactly those from the next expected one to `upTo` with the same parity. |
| StreamIds.SweepAscending | streams_map_test.go:283-295 | The streams a sweep opens are listed lowest first. |
| StreamIds.SweepLength | streams_map_test.go:104-117 | A sweep from `from` to `upTo` opens (upTo - from) / 2 + 1 streams, which is what the limit check counts. |
| StreamTable.Initial | streams_map_test.go:27-29 | The empty table satisfies the invariant. |
| StreamTable.SurvivorsElems | streams_map_test.go:512-545 | The streams that survive deletion are exactly the open streams that have not finished. |
| StreamTable.NumFinished | streams_map_test.go:618-651 | The finished entries and the surviving entries of a list add up to its length. |
| TableInvariant.SurvivorsAppend | streams_map_test.go:512-534 | Deletion filters a list piece by piece, so the survivors keep their order. |
| TableInvariant.SurvivorsNoDup | streams_map_test.go:27-29 | Deleting entries from a list without duplicates leaves a list without duplicates. |
| TableInvariant.ValidGetOrOpen | streams_map_test.go:27-29 | GetOrOpen keeps the invariant. |
| TableInvariant.ValidSweep | streams_map_test.go:86-126 | Opening the peer streams up to `id` within the limit keeps the invariant. The parts are SweepMirrored, SweepCounted, SweepNumbered and SweepQueued. |
| TableInvariant.SweepMirrored | streams_map_test.go:27-29 | After a sweep, the open list still lists each stored stream exactly once. |
| TableInvariant.SweepCounted | streams_map_test.go:47-53 | After a sweep, the counters still count by parity, and the peer's counter grows by the number of streams swept. |
| TableInvariant.SweepNumbered | streams_map_test.go:60-65 | After a sweep, exactly the identifiers below the next expected ones are known, and none is both open and retired. |
| TableInvariant.SweepQueued | streams_map_test.go:334-349 | After a sweep, the accept queue is still ascending and holds only peer identifiers already handed out. |
| TableInvariant.ValidOpen | streams_map_test.go:130-198 | Open keeps the invariant. |
| TableInvariant.ValidAccept | streams_map_test.go:259-384 | Accept keeps the invariant. |
| TableInvariant.ValidDeleteClosed | streams_map_test.go:492-545 | Deletion keeps the invariant. |
| TableInvariant.ValidMarkFinished | streams_map_test.go:481-490 | Marking a stream finished keeps the invariant. |
| TableInvariant.ValidUpdateTransportParameters | streams_map_test.go:164-169 | Updating the transport parameters keeps the invariant. |
| TableInvariant.ValidCloseWithError | streams_map_test.go:145-150 | Closing keeps the invariant. |
| TableInvariant.ValidCursor | streams_map_test.go:574-586 | Moving the cursor to any position up to the length of the open list keeps the invariant. |
| TableInvariant.CursorAfterDeleteBound | streams_map_test.go:618-651 | A cursor within the open list stays within the list that deletion leaves: it can land just past the end, never further. |
| TableInvariant.BookSnoc | streams_map_test.go:86-92 | Booking identifiers one at a time books them all, in order. |
| TableInvariant.CursorStep | streams_map_test.go:618-651 | One step of the compaction keeps the cursor tracking: it moves back only for a removed entry that lies before it. |
| TableInvariant.CursorDone | streams_map_test.go:618-651 | At the end of compaction, the cursor is where DeleteClosed puts it. |
| RoundRobin.Run | streams_map_test.go:588-616 | A pass moves the cursor over at most as many positions as it has candidates. Only a halted pass carries an error, and a halted pass offered at least one stream. |
| RoundRobin.RunAllContinue | streams_map_test.go:561-572 | When the callback never stops, the pass offers every eligible candidate in order and passes every position. |
| RoundRobin.RunPrefix | streams_map_test.go:588-616 | Whatever the callback answers, the streams offered are a prefix of the eligible candidates. |
| RoundRobin.RunEndsAt | streams_map_test.go:588-616 | A pass ended by a Stop moves the cursor just past the stream that stopped it. A pass ended by a Fail leaves the cursor on the failing stream. |
| RoundRobin.RotateFacts | streams_map_test.go:574-586 | A rotation of a duplicate-free list holds the same identifiers, each once, and reads the list from `start` with wrap-around. |
| RoundRobin.FullOrderPriorityFirst | streams_map_test.go:661-675 | The order of a pass starts with streams 1 and 3, those of them that are open, in that order. |
| RoundRobin.FullOrderExactlyOnce | streams_map_test.go:561-586 | The order of a pass lists every open stream exactly once. |
| RoundRobin.FullLap | streams_map_test.go:561-586 | A pass the callback never stops offers that full order without error. It leaves a cursor that was in range where it was. |
| RoundRobin.PassIsPrefix | streams_map_test.go:588-616 | Every pass offers a prefix of the full order, so no stream is offered twice. |
| RoundRobin.StopResumesAfter | streams_map_test.go:588-616 | When the callback stops the lap, the new cursor is in range and points one past the last stream offered. |
| RoundRobin.IterateCursorBound | streams_map_test.go:588-616 | A pass keeps a cursor that was within the open list within it. Once a lap has stepped over a position, the cursor points at an entry of the list. |
| RoundRobin.RunUnhalted | streams_map_test.go:653-675 | A pass nothing stopped offered all eligible candidates and passed every position. |
| TableProperties.OpenListMatchesMap | streams_map_test.go:27-29 | The open list and the map always have the same length. |
| TableProperties.GetOrOpenInvalid | streams_map_test.go:55-65 | A frame is refused as an invalid stream exactly when the identifier is unknown and is of this endpoint's parity, or is 0. A refused frame changes nothing. |
| TableProperties.GetOrOpenRetired | streams_map_test.go:77-102 | A retired identifier returns no stream and no error. This holds for peer and own identifiers alike. |
| TableProperties.GetOrOpenIdempotent | streams_map_test.go:67-75 | Asking again for a stream just returned returns the same stream and leaves the table, counters included, unchanged. |
| TableProperties.GetOrOpenSweeps | streams_map_test.go:86-92 | A new peer identifier within the limit returns a fresh stream. It opens exactly the skipped peer identifiers of its parity, appends them lowest first to the open list after the streams already there, and queues them in the same order. It adds their number to the peer's counter and leaves the own counter alone. |
| TableProperties.SweptFacts | streams_map_test.go:412-418 | After a sweep, the map holds exactly the old streams plus the swept identifiers, the queue is ascending, and only the peer's counter grows. |
| TableProperties.GetOrOpenTooMany | streams_map_test.go:104-117 | A frame is refused for too many streams exactly when the new identifier and the ones it skips would take the peer's counter past the limit. |
| TableProperties.RetiredStaysRetired | streams_map_test.go:94-102 | No operation takes an identifier out of the retired set or back into the map. |
| TableProperties.OpenFails | streams_map_test.go:130-150 | Open fails exactly when the table is closed, with the closing error, or when the own counter is at its limit. A failed open changes nothing. |
| TableProperties.OpenNumbering | streams_map_test.go:442-448 | A successful open returns the next own identifier, one of its parity and never seen before. It moves the next identifier up by 2, appends the stream to the open list and books it on the own counter only. The limit and the closing error stay as they were, so the next open can be judged again by OpenFails. |
| TableProperties.ServerWaitsForParameters | streams_map_test.go:130-133 | A fresh server opens nothing before the transport parameters arrive. |
| TableProperties.FirstOwnStream | streams_map_test.go:433-440 | The first own stream is 2 for a server and 1 for a client. |
| TableProperties.ServerOpenLimit | streams_map_test.go:171-186 | With a limit of two, a server opens 2 and 4, and the third open fails without changing anything. After stream 2 is deleted, stream 6 opens. |
| TableProperties.ClosedTableErrors | streams_map_test.go:145-150 | After the table is closed, Open and Accept return the closing error, and a second close changes nothing. |
| TableProperties.AcceptLowest | streams_map_test.go:334-349 | Accept hands out an open stream from the queue, the lowest of the waiting streams that are still open. Afterwards the queue holds exactly the waiting identifiers above it. |
| TableProperties.AcceptSome | streams_map_test.go:297-317 | While the table is open, Accept hands out a stream whenever some open stream is waiting, and never one above it. |
| TableInvariant.WaitingSuffix | streams_map_test.go:259-384 | Accept drops only a prefix of the queue, and only streams no longer open. |
| TableProperties.AcceptAfterSweep | streams_map_test.go:283-295 | After a frame for peer stream `id` on a table with nothing waiting, the first accept returns the lowest stream that frame opened. |
| TableProperties.DeleteRemovesFinished | streams_map_test.go:501-545 | Deletion removes exactly the finished streams and retires exactly their identifiers. Every other stream stays as it was, and the open list and the map stay in step. |
| TableProperties.CursorFollowsStream | streams_map_test.go:624-628 | When the stream under the cursor survives deletion, the cursor still points at it. |
| TableProperties.CursorKeptWhenNothingBefore | streams_map_test.go:630-640 | Removing streams only at or after the cursor leaves the cursor where it is. |
| TableProperties.NoneFinished | streams_map_test.go:630-640 | A list with no finished entries counts zero finished. |
| TableProperties.NoneFinishedSurvivors | streams_map_test.go:501-510 | A list with no finished entries survives deletion whole. |
| TableProperties.Deleted | streams_map_test.go:31-38 | Finishing and deleting the one stream just added, when nothing else has finished, gives back the same open list and map and retires the stream. |
| TableProperties.PeerOpenDeleteCycle | streams_map_test.go:119-125 | On any valid table where no stream has finished and the peer is below its limit, such as the one with streams 1 and 3 open that the test builds: opening the next peer stream and then deleting it leaves a valid table. That table has the same open streams, the same map and the same count on the peer's counter, so the cycle can repeat forever. |
| TableProperties.OwnOpenDeleteCycle | streams_map_test.go:180-186 | The same for own streams: below the own limit and with nothing finished, open the next stream and delete it. The open streams, the map, the own counter and the limit are as before. |
| Scenarios.DeleteBeforeAndAfterCursor | streams_map_test.go:642-651 | Finishing 5, 6 and 8 of the streams 4 to 8, with the cursor at 3, leaves the streams 4 and 7 and the cursor at 1. |
| Scenarios.AcceptSkipsDeleted | streams_map_test.go:283-295 | A frame for 3 on a new server opens 1 and 3. When stream 1 is deleted before it is accepted, Accept hands out 3. |
| Scenarios.HeadDeletedBeforeAccept | streams_map_test.go:283-295 | With two streams waiting, finishing and deleting the first one before it is accepted makes Accept hand out the second. |
| Scenarios.FrameForThree | streams_map_test.go:86-92 | A frame for 3 on a new server opens 1 and 3 and queues both, lowest first. |
| Scenarios.StopAtFiveResumesAtSix | streams_map_test.go:588-604 | A pass from position 0 that stream 5 stops offers 4 and 5 and leaves the cursor at 2. |

## Left out

- Blocking open and accept (`OpenStreamSync`, and an `AcceptStream` that waits) are left out because they rest on goroutines, a condition variable and timing. `AcceptStream` is modelled as a non-blocking call: it returns no stream where the original would wait. The accept tests that run two acceptors at once are not modelled.
- The mutex that serialises every operation is left out. The model is sequential.
- Flow control (`internal/flowcontrol/interface.go`) is left out. It holds only method signatures and no behaviour.
- A stream's internals are reduced to its identifier and a `finished` flag: buffers, `Close`, cancellation, and what `finished()` computes. `MarkFinished` stands for the stream becoming finished, as the tests' `closeStream` helper does.
- The transport parameters are reduced to the one number `MaxStreams`.
- Error strings are left out. Errors are a datatype, and an invalid stream error carries the identifier.
- `maxIncomingStreams` is a constructor parameter. Its value in the original is a protocol constant that is not part of this model.
- The test fixture `putStream` is not modelled as an operation of its own, nor is the error it returns for an identifier already in the map. It inserts streams without checking their identifiers, so it could break the numbering invariant. `Multiplexer.StreamsMap.PutStream` is only the step both open paths take, and it requires an identifier not yet in the map. `Scenarios.FiveStreams` builds the fixture's tables directly.
- `newStream` and `removeStreamCallback`, the callbacks given to the constructor, are not modelled. A new stream is just the value `Stream(id, false)`.
- Stream identifiers are unbounded naturals. The 32-bit wrap-around of `StreamID` and of `roundRobinIndex` is not modelled, because no test comes near it.
- Multiplexer.StreamsMap.OpenStream: the tests do not show what bounds a client's own opens. The model bounds them by `maxIncomingStreams`, on the counter they are booked on. A client's transport parameters are stored but bind nothing.
- Multiplexer.StreamsMap.AcceptStream: no test deletes a waiting stream before it is accepted. The model drops such streams from the queue, so Accept hands out the lowest waiting stream that is still open.
- The error the original returns when a stream is missing from the map cannot happen here: the invariant keeps the list and the map in step, so deletion and scheduling have no such error path.
- RoundRobin.FullLap: the cursor is restored unchanged only when it was below the number of streams. Deletion can leave the cursor equal to that number (TableInvariant.CursorAfterDeleteBound). The next pass reduces it modulo that number, so FullLap states the reduced value in general.

Choices the tests pin down:

- **Open list order.** The open list is in insertion order: streams 1 and 3 are put after 4 to 8 at streams_map_test.go:653-659 and come last in it.
- **Counters.** The two counters count by parity: odd streams on `numIncomingStreams`, even streams on `numOutgoingStreams`, whichever side opened the stream (streams_map_test.go:404-410, 433-440).
- **A client opens without transport parameters.** A client opens stream 1 and then 3 before any transport parameters arrive (streams_map_test.go:433-448).
- **Cursor after deletion.** The cursor moves back by the streams deleted before it (streams_map_test.go:618-651). It can then equal the number of remaining streams, and the invariant allows that and no more.
