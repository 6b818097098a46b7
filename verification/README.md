# holytls verification

A Dafny 4.11 model of the parts of holytls where state, interleaving or
arithmetic make the code hard to get right, with proofs over every input, run or
reachable state. `dafny verify dfyconfig.toml` checks all of it.

| files | what they model |
|---|---|
| `RingLayout`, `RingMachine`, `RingTheorems`, `RingAllocator` | the single-producer single-consumer ring (`src/base/ring_alloc.h`) |
| `PoolState`, `PoolBooks`, `Pool`, `PoolLosses`, `PoolChoice` | the connection pool (`src/core/pool.c`) |
| `Async`, `AsyncRoutes` | the async submission and completion hand-off (`capi/holytls_capi.c`) |
| `Arena` | the arena allocator (`src/base/arena.c`) |
| `H3`, `H3Wire` | HTTP/3 varints, frames, control stream and in-place body compaction (`src/h3`) |
| `Text`, `HostNames`, `Dates`, `Psl`, `CookieParse`, `CookieJar`, `CookieSyntax` | the cookie jar and the public-suffix guard (`src/core/cookie.c`, `src/core/psl.c`) |
| `SecFetch`, `Redirect` | redirect chains (`src/core/client.c`, `src/core/sec_fetch.c`) |
| `Options`, `Bytes` | optional values; bytes, little-endian words, arithmetic modulo a capacity |

## The main results

- **Ring.** The two threads are a step system in which each atomic load and store
  of `head` and `tail` is one step. For every interleaving, with caches as stale
  as they like, the ring is a FIFO queue of blocks: `FifoRefinement`. `Ring` is
  the same code as an object over a byte array, proved to do what the steps do.
- **Pool.** `ConnPool` holds the records as maps from ids; every event handler is a
  method that keeps one invariant on those books (`Inv`), and `Run` composes any
  number of events. `Bookkeeping`, `HeldExactlyOnce`, `Conservation` and `LossesExactly`
  read the invariant out in plain terms; `ConnectStrandsIff`, `HandOverStrandsIff` and
  `SweepStrandsIff` say when each kind of loss can happen, and that it does. `ChosenIff` says
  when pool_acquire takes each of its six ways, from conns[] and the records alone.
- **Async.** Every critical section, pipe operation and wakeup is one step; over
  every run no wakeup is lost and every accepted submission is in exactly one place. In either
  mode `AsyncRoutes` says which place that is, and in which order submissions get there.
- **Arena.** Over every script of pushes and nested temporaries, live allocations are
  aligned, in their block and disjoint, and a temporary restores the position exactly. Where a
  push lands is said in numbers (`Landed`).
- **HTTP/3.** Compacting DATA payloads inside the buffer that is still being parsed
  yields the body and header blocks of the bytes as received; a control stream read
  back gives the profile it was built from.
- **Cookies.** Over every run a cookie is sent only to its setter or to a host that ends in
  the same labels, of a domain that is no public suffix; a Set-Cookie value written out from
  a name, a value and any attributes is understood as it is meant; the header is exactly the
  matching cookies in the one order section 5.4 of RFC 6265 asks for; the date
  formula counts days.
- **Redirects.** For chains of any length: the dispatch bound, where Authorization
  is exactly, which statuses rewrite the request and which leave it alone, and Sec-Fetch-Site
  that never falls.

## How to read the model

- A function or predicate followed by a `depth` parameter (`FoldFrom`, `HeaderFrom`,
  `InvFrom`, `DispatchFrom`, `PlaceFrom`, `NextFrameFrom`, `VarintGetFrom`, `Split`, `Labelled`) is the definition
  behind its namesake, kept some calls deep so that a proof sees it only through its lemmas:
  with it in the open, the proofs about whole streams and handlers outgrow the solver.
- Ring: acquire and release operations are atomic steps; offsets are naturals, which is
  the source's own statement that 64-bit offsets do not wrap; capacities are below 2^63.
- Pool: a `PoolConn` or `PoolReq` pointer is a key of a map, the intrusive lists are
  sequences in list order. A user callback is any finite list of dispatches; a callback
  that fails a nested dispatch is flattened into that list. `lost`, `closed`, `delivered`,
  `legacy` and `cut` only keep account: `closed` has the record of each connection as it
  began to close, `cut` the first 255 bytes of each longer origin in a dispatch. The drain
  that follows an H2 connection's readiness is the receive event that comes next.
  `connectFailsNow` says whether connecting may report failure before the call returns.
  The stream limit nghttp2 reports before the peer's SETTINGS have come is any number from 1.
- Async: libuv's coalesced wakeup is a flag, the self-pipe a bounded count of bytes;
  the consumer follows the header's rule (empty the fd, then drain until fewer than max).
- Host names are compared by their labels, the lower-case pieces between the dots (`HostNames`).
- Text: a `string` stands for the bytes of a `String8`, one char for one byte.
- Cookies: `http_date_parse` is a parameter of the jar; the public-suffix tables are any
  sorted tables. Redirects: `url_parse` and `url_resolve` are parameters.

## Where code and documentation differ

- `src/base/ring_alloc.h:75-76` says blocks up to capacity - 32 can fit; the code takes
  capacity - 16 at phase 0 (`RingTheorems.LargestBlock`).
- `capi/holytls_capi.h:374` promises at most one unread byte. That holds in every run
  without an exact drain, one that gets as many completions as it asked for and empties the
  FIFO by it (`Async.AtMostOneByte`). An exact drain can break it
  (`Async.ExactDrainBreaksBound`), in a run from the start (`Async.TwoBytesReached`). No
  wakeup is lost either way (`Async.NoLostWakeup`).
- `src/core/cookie.h:58` says store evicts expired cookies. It removes one exactly when it
  deletes or writes over its key (`CookieJar.StoreRemovesIff`, `ExpiredSurvivesStore`).
- The pool keeps 255 bytes of an origin (`src/core/pool.c:197-270`). The cap holds for every
  shorter origin, and for one of 255 bytes as long as no longer origin that begins with it
  has been dispatched for the protocol (`PoolBooks.Bookkeeping`). A longer origin is never
  capped, and takes the cap of its first 255 bytes with it (`Pool.ConnPool.LongBurst`).
- A request can be left on a closing connection in three ways and no other
  (`PoolBooks.LossesExactly`), and each has its exact condition and its input:
  - the connect failed before the call returned (`src/core/pool.c:328-338`): possible exactly
    if a connect can fail at once (`PoolLosses.ConnectStrandsIff`), and it does to the first
    dispatch of a pool (`PoolLosses.FirstDispatch`);
  - a callback run by the legacy hand-over of an H2 connection queued it on that very
    connection (`src/core/pool.c:506-521`): possible exactly if a start on the per-request
    path can fail at once (`PoolLosses.HandOverStrandsIff`), and it does to the first
    connection of a pool (`PoolLosses.RiderStranded`, `FirstRider`);
  - an H2 connection was swept while its peer allowed no stream
    (`PoolBooks.SweepStrandsIff`, with the books `PoolBooks.BlockedBooks`).
- A public-suffix verdict depends on a trailing dot for one length: at 255 bytes the dotted
  form no longer fits the buffer (`Psl.TrailingDot`, `Psl.TrailingDotCounts`).
- Of several Sec-Fetch-Site headers only the last counts and all are overwritten
  (`Redirect.EarlierHeaderLowered`).

## Model

| member | source | states |
|---|---|---|
| RingLayout.MaskFolds | src/base/ring_alloc.h:188-199 | the offset masked with capacity - 1 is the offset modulo the capacity, for every power of two |
| RingLayout.HeaderReadBack | src/base/ring_alloc.h:188-199 | a header written at any aligned offset, across the fold or not, reads back as the same size word and tag |
| RingLayout.BlockInPlace | src/base/ring_alloc.h:371-386 | the data of a block that fits is one slice of the buffer, 16-aligned, right behind its header |
| RingLayout.AgreeQueue | src/base/ring_alloc.h:344-386 | the queue a buffer spells out depends on the bytes between tail and head only |
| RingLayout.AppendRecord | src/base/ring_alloc.h:308-320 | a record at the end of a chain adds exactly its block to the queue |
| RingMachine.InitInv | src/base/ring_alloc.h:207-222 | a ring of an accepted capacity starts in the invariant, empty |
| RingMachine.WriteUnpublished | src/base/ring_alloc.h:280-313 | any producer write in the reservable range leaves chain, queue and consumer state as they were |
| RingMachine.MaxDataFits | src/base/ring_alloc.h:256-298 | the reported maximum is a multiple of 16, at least the padded request, inside the turn and inside the free space by the cached tail |
| RingMachine.SkipIsStaged | src/base/ring_alloc.h:281-287 | the SKIP marker written at head reads back as one that ends at the physical end |
| RingMachine.StageKeepsInv | src/base/ring_alloc.h:280-299 | staging a reservation keeps the invariant and the queue, with room for the request |
| RingMachine.UserWriteKeepsInv | src/base/ring_alloc.h:239-244 | filling the reserved span keeps the invariant and the queue |
| RingMachine.CommitHeaderKeepsInv | src/base/ring_alloc.h:308-316 | writing the block header before publishing keeps the invariant and the queue |
| RingMachine.PublishAppends | src/base/ring_alloc.h:308-320 | storing head appends exactly the staged block, byte for byte, with its tag |
| RingMachine.ReleaseDrops | src/base/ring_alloc.h:393-407 | storing tail removes exactly the oldest block |
| RingMachine.ProducerQuiet | src/base/ring_alloc.h:246-328 | the other producer steps, abort included, keep invariant and queue |
| RingMachine.ConsumerQuiet | src/base/ring_alloc.h:344-386 | every step of ra_peek keeps invariant and queue |
| RingMachine.ReleaseQuiet | src/base/ring_alloc.h:393-406 | the reads of ra_release keep invariant and queue |
| RingTheorems.StepKeepsInv | src/base/ring_alloc.h:246-407 | every step of either thread keeps the safety invariant (tail_cache <= tail <= head <= tail_cache + capacity, aligned offsets, well-formed chain), and only the two index stores move the queue |
| RingTheorems.CommitKeepsData | src/base/ring_alloc.h:308-320 | the header write of a commit does not touch the bytes the caller filled in |
| RingTheorems.ReservationIsDisjoint | src/base/ring_alloc.h:246-320 | no byte the producer may write shares a position with a live byte |
| RingTheorems.PeekAssertionsHold | src/base/ring_alloc.h:371-380 | the two consumer assertions: a SKIP is never exposed without its block and never followed by another |
| RingTheorems.HeldIsOldest | src/base/ring_alloc.h:344-386 | what the consumer holds is contiguous, aligned, live, and the oldest block |
| RingTheorems.RunMovesQueue | src/base/ring_alloc.h:246-407 | from any good state, over any interleaving, the queue gains the committed blocks at the back and loses the released ones at the front |
| RingTheorems.FifoRefinement | src/base/ring_alloc.h:246-407 | after any run from ra_init the live blocks are the committed ones minus the released prefix, and a held block is byte for byte the oldest |
| RingTheorems.EmptyIsHonest | src/base/ring_alloc.h:365-369 | ra_peek reports empty exactly when everything committed had been released as head was read |
| RingTheorems.ReserveSucceedsIff | src/base/ring_alloc.h:246-300 | ra_reserve succeeds if and only if the 16-byte header and the padded data fit the true free space, up to the physical end or behind a SKIP to it, in plain numbers and however stale the cached tail |
| RingTheorems.ReserveSpan | src/base/ring_alloc.h:256-299 | the header goes to head or to the start of the next turn, the room reported is all there is up to the physical end and the known tail, and the shared tail is read only if the cached one does not do |
| RingTheorems.EmptyRingFit | src/base/ring_alloc.h:74-76 | in an empty ring at any phase the fit rule is exact |
| RingTheorems.HalfAlwaysFits | src/base/ring_alloc.h:74-75 | every block of at most capacity/2 - 16 bytes fits an empty ring at every phase |
| RingTheorems.LargestBlock | src/base/ring_alloc.h:75-76 | the largest block is capacity - 16 bytes and fits at phase 0 only (the header comment says capacity - 32) |
| RingTheorems.ReservationIsContiguous | src/base/ring_alloc.h:258-299 | a reserved span lies inside the buffer in one piece |
| RingTheorems.ReserveKeepsInv | src/base/ring_alloc.h:246-300 | a whole ra_reserve keeps invariant and queue and reports a multiple of 16 no smaller than asked |
| RingTheorems.CommitAppends | src/base/ring_alloc.h:308-320 | any size up to the reported maximum can be committed and appends the caller's bytes |
| RingAllocator.Ring.constructor | src/base/ring_alloc.h:207-222 | a fresh ring over the memory is valid and empty |
| RingAllocator.Ring.Init | src/base/ring_alloc.h:207-222 | a ring is handed out exactly for the accepted capacities |
| RingAllocator.Ring.WriteHeader | src/base/ring_alloc.h:188-193 | the buffer becomes the model's buffer with that header at that offset |
| RingAllocator.Ring.ReadHeader | src/base/ring_alloc.h:195-199 | the two words read are the header the layout says is there |
| RingAllocator.Ring.FreeFor | src/base/ring_alloc.h:269-278 | the free space by the cached tail, reloaded only when it looks too small |
| RingAllocator.Ring.Reserve | src/base/ring_alloc.h:246-300 | the object does what the machine does; success condition, span and largest room in plain numbers |
| RingAllocator.Ring.Stage | src/base/ring_alloc.h:280-298 | the SKIP, the recorded reservation and the maximum |
| RingAllocator.Ring.Commit | src/base/ring_alloc.h:308-320 | contents grow by exactly the reserved bytes under the tag |
| RingAllocator.Ring.Abort | src/base/ring_alloc.h:324-328 | the reservation is gone, contents unchanged |
| RingAllocator.Ring.Alloc | src/base/ring_alloc.h:331-334 | one block of exactly the size more, or unchanged contents, and exactly when, in plain numbers |
| RingAllocator.Ring.Peek | src/base/ring_alloc.h:344-386 | empty exactly when there is no block, else the oldest one in place |
| RingAllocator.Ring.Release | src/base/ring_alloc.h:393-407 | contents lose their first block |
| PoolState.Unlink | src/core/pool.c:57-97 | the list without the request, order kept |
| PoolState.MoveKeeps | src/core/pool.c:53-97 | a move that touches one connection and one request keeps the whole book consistent |
| PoolState.StartKeeps | src/core/pool.c:460-468 | linking a request on the active list, with its H3 route, keeps the lists, the counters and the routing table in step |
| PoolState.EndKeeps | src/core/pool.c:57-66 | unlinking it again does too |
| PoolState.CloseKeeps | src/core/pool.c:272-279 | closing a connection leaves every other one consistent |
| PoolState.SwapOutFacts | src/core/pool.c:174-183 | swap-removal from conns[] takes out that connection and keeps the rest, without duplicates |
| PoolState.CapOpens | src/core/pool.c:296-360 | opening under the cap keeps the cap of every (origin, protocol) that is not the cut of a longer origin |
| PoolBooks.Bookkeeping | src/core/pool.c:53-97 | between events, on every live connection: inflight is the length of the active list, idle means none in flight, H1 has at most one active, H3 at most 16 with streams[] exactly the active set, and a Ready connection with nothing in flight has nobody waiting if its peer allows a stream; conns[] has no duplicates and at most 256 entries; usable connections per (origin, protocol) stay within the cap for every origin, short only of 255-byte ones that are the cut of a longer origin in a dispatch |
| PoolBooks.HeldExactlyOnce | src/core/pool.c:426-501 | a request on the books and not lost is on exactly one list, once, of exactly the connection it names, unanswered, submitted at most three times |
| PoolBooks.Conservation | src/core/pool.c:129-157 | every accepted request is on the books, delivered, or handed to the legacy path; never two of these, and never twice |
| PoolBooks.LossesExactly | src/core/pool.c:272-279 | over every run a request is lost exactly if it is on the books and was on the lists of a connection whose connect failed at once, of an H2 connection closed by its own legacy hand-over, or of an H2 connection swept while its peer allowed no stream |
| PoolBooks.NobodyLeftIff | src/core/pool.c:272-279 | nobody was ever left behind exactly when no connection closed in one of those three ways |
| PoolLosses.AcquireKeeps | src/core/pool.c:296-360 | placing a request, with all the retries it may take, loses nobody while no connect fails at once |
| PoolLosses.FirstDispatch | src/core/pool.c:328-338 | the first dispatch of a pool whose connect fails at once leaves its request behind, in books that balance; if the connect does not fail, nobody is left |
| PoolLosses.ConnectStrandsIff | src/core/pool.c:328-338 | over all books and outcomes, placing a request leaves the lost as they were exactly if no connect can fail at once |
| PoolLosses.RiderStranded | src/core/pool.c:506-521 | from any balanced books with one handshaking H2 connection and one request waiting on it, a hand-over whose callback dispatches to the same origin leaves exactly that new request on the connection it closes |
| PoolLosses.FirstRider | src/core/pool.c:506-521 | such books are those after the first dispatch of a pool |
| PoolLosses.HandOverStrandsIff | src/core/pool.c:506-521 | over all balanced books and outcomes, a hand-over leaves nobody on the connection it closes exactly if no start can fail at once |
| PoolBooks.RidersAreNew | src/core/pool.c:506-521 | who is on a connection closed by its legacy hand-over was dispatched during it |
| PoolBooks.SweptIsEmptyOrBlocked | src/core/pool.c:1186-1202 | a connection the idle sweep takes has nobody on its lists, or a queue its H2 peer allows no stream for |
| PoolBooks.SweepStrandsIff | src/core/pool.c:1186-1202 | over all books, the sweep leaves nobody behind on connections of a protocol and peer limit exactly unless these are H2 and 0; the books where it does are given |
| PoolBooks.GenerousSweepStrandsNobody | src/core/pool.c:1186-1202 | with peers that allow a stream a sweep strands nobody |
| PoolBooks.ParkedInv | src/core/pool.c:68-74 | queueing a request keeps the invariant |
| PoolBooks.StartedInv | src/core/pool.c:460-468 | submitting a request keeps the invariant |
| PoolBooks.FinishedInv | src/core/pool.c:129-141 | finishing a request keeps the invariant and moves it to the delivered |
| PoolBooks.OpenedInv | src/core/pool.c:197-270 | opening a connection under the limits keeps the invariant |
| PoolBooks.ClosedInv | src/core/pool.c:272-279 | closing a connection keeps the invariant, its requests accounted as lost and its record logged |
| PoolBooks.EmptiedInv | src/core/pool.c:610-631 | detaching all requests of a connection keeps the invariant with those requests in hand |
| PoolBooks.EndedInv | src/core/pool.c:580-608 | ending an answered request keeps the invariant |
| PoolBooks.EmptyInv | src/core/pool.c:1205-1211 | an empty pool satisfies the invariant |
| Pool.ChosenFits | src/core/pool.c:296-360 | the connection pool_acquire picks can take the request in the way it is picked for, and a new one is opened only under the cap |
| PoolChoice.PlaysIff | src/core/pool.c:185-195 | a connection has capacity exactly if it is open, sound and carries fewer requests than its slots: 1 on H1, the peer's limit on H2 and none after GOAWAY, 16 on H3 |
| PoolChoice.ChosenIff | src/core/pool.c:296-360 | for every state, each of the six outcomes is taken exactly when it is due: the first connection in conns[] order with a free slot; else on H2 and H3 the first handshaking one; else a new one below both limits; else on H2 and H3 the first open one; on H1 the first handshaking, then the first open one; else none |
| PoolChoice.AcquireConns | src/core/pool.c:296-360 | placing a request opens a connection only as its own choice or after a retry, and a request that is called back opened none |
| PoolChoice.DispatchReuses | src/core/pool.c:314-319 | a dispatch that finds a free slot takes the first, and opens nothing unless on H3 it is retried; on H1 and H2 it ends up called back, at the end of the queue, or as one more stream within the slots |
| PoolChoice.RetryIff | src/core/pool.c:143-157 | a retry is another acquire with one retry less and no connection named, and with none left it is the callback |
| PoolChoice.StreamIds | src/core/pool.c:916-1018 | a stream takes the next id, and ids go up in fours from 0 |
| PoolChoice.IdleClock | src/core/pool.c:643-664 | a connection at rest since t is swept exactly from t plus the time-out on; coming to rest again does not restart the clock, a stream stops it; neither a handshaking nor a closing connection is swept, a broken one exactly once it is drained |
| Pool.OriginMatchesIff | src/core/pool.c:197-270 | a connection answers to the origin it was opened for exactly when the origin fits 255 bytes |
| Pool.OpenCountsIff | src/core/pool.c:296-360 | so a connection opened for a longer origin is never counted against the cap of that origin |
| Pool.LongChoice | src/core/pool.c:296-360 | with only connections cut from a longer origin, that origin gets a new one until conns[] is full |
| Pool.BurstChoice | src/core/pool.c:296-360 | while all connections are handshaking, H2 and H3 coalesce and H1 opens another up to the cap |
| Pool.BurstStep | src/core/pool.c:296-360 | one more dispatch of a burst adds exactly that many connections |
| Pool.ConnPool.constructor | src/core/pool.c:1205-1211 | an empty, balanced pool |
| Pool.ConnPool.Park | src/core/pool.c:68-74 | the request is queued on that connection and nothing else changes |
| Pool.ConnPool.Finish | src/core/pool.c:120-141 | the request is delivered and off the books |
| Pool.ConnPool.Scan | src/core/pool.c:299-313 | the first usable connection of each kind in conns[] order, and the number of usable ones |
| Pool.ConnPool.Pick | src/core/pool.c:314-360 | the choice the scan leads to |
| Pool.HandOverKeeps | src/core/pool.c:506-518 | while no start fails at once, a hand-over moves the queue to the legacy path in order and touches no connection |
| Pool.ConnPool.Open | src/core/pool.c:197-270 | one more connection, handshaking, or closing if connecting failed at once, with any stream limit from 1 |
| Pool.ConnPool.OpenFor | src/core/pool.c:328-338 | a new connection with the request queued on it |
| Pool.ConnPool.Acquire | src/core/pool.c:296-360 | the request leaves the hand exactly as the choice says: parked on the named connection, on a new one, refused with its callback, or submitted; everyone else is untouched |
| Pool.ConnPool.Submit | src/core/pool.c:426-457 | parked if the receive loop is on the stack or H3 is out of capacity; else, on H1 and H2, a stream or the error, spelled out as books |
| Pool.ConnPool.CountSubmit | src/core/pool.c:426-457 | a submit names its connection and counts against the bound of 1 + POOL_MAX_RETRIES |
| Pool.ConnPool.SubmitPlain | src/core/pool.c:470-493 | an H1 or H2 submit outside the receive loop: the request is active, or finished with its error |
| Pool.ConnPool.OpenStream | src/core/pool.c:916-1018 | the connection's next stream id, used by no other request on it |
| Pool.ConnPool.SubmitStream | src/core/pool.c:916-1018 | an H3 submit outside the receive loop: a stream under a fresh id, or the outcome of a retry before or after the stream is open, all spelled out as books |
| Pool.ConnPool.Start | src/core/pool.c:460-468 | the request is active and routed, all else unchanged |
| Pool.ConnPool.FillStream | src/core/pool.c:916-1018 | the request is the stream just opened, or is retried |
| Pool.ConnPool.Charge | src/core/pool.c:143-157 | one retry off the budget, no connection named |
| Pool.ConnPool.RetryOrFail | src/core/pool.c:143-157 | with budget left and no response, one retry is charged and the request acquires again; else exactly the callback; terminates by that budget |
| Pool.ConnPool.Accept | src/core/pool.c:362-400 | one more request record, in hand, with the full retry budget |
| Pool.ConnPool.Dispatch | src/core/pool.c:362-418 | one more request accepted and acquired; in a burst the connection count grows exactly as specified |
| Pool.ConnPool.Callback | src/core/pool.c:574-577 | a callback is some number of dispatches, each with an outcome pool_acquire allows; the books balance and everybody else is untouched |
| Pool.ConnPool.PlaceEach | src/core/pool.c:610-664 | every request of a detached list is placed again, in order, each with an outcome that a retry or an acquire allows, callbacks in between |
| Pool.ConnPool.PlaceNext | src/core/pool.c:619-630 | one of them, and the callback it may have run |
| Pool.ConnPool.Flush | src/core/pool.c:498-504 | queued requests are submitted from the front until none waits or capacity is gone; the others keep their places ahead of whoever came since |
| Pool.ConnPool.Close | src/core/pool.c:272-279 | the connection is closing, its requests accounted for |
| Pool.ConnPool.FailAll | src/core/pool.c:610-631 | the connection ends up closing and empty, first its active and then its queued requests placed again on their retries; nobody is lost unless a retry's connect can fail at once |
| Pool.ConnPool.UpdateIdle | src/core/pool.c:643-664 | nothing on a closing connection, the idle mark exactly when it is due on a healthy one, and on a broken one the queue re-homed in order, free of charge, and the connection closed exactly when nothing is in flight |
| Pool.ConnPool.OnReady | src/core/pool.c:523-542 | Ready exactly when the handshake, the protocol and the session succeeded, with the queue flushed; else closing, on an H2 mismatch with the whole queue on the legacy path |
| Pool.ConnPool.HandOverQueue | src/core/pool.c:506-518 | the waiting list goes to the legacy path in its order, once each, with an outcome the hand-over relation allows; whoever is queued afterwards came in between |
| Pool.ConnPool.DropBroken | src/core/pool.c:519-520 | exactly that connection is closed and broken, with whoever is queued on it |
| Pool.ConnPool.FallbackLegacy | src/core/pool.c:506-521 | both together, with the record that was closed |
| Pool.ConnPool.RecvBegin | src/core/pool.c:666-671 | the receive flag of a live connection is set, nothing else |
| Pool.ConnPool.PeerSays | src/core/pool.c:675-684 | exactly the stream limit and the GOAWAY mark change |
| Pool.ConnPool.OnResponse | src/core/pool.c:753-786 | off the active list; placed again on a retry if nothing came back, else delivered; the H1 connection is marked broken exactly when it may not be kept alive |
| Pool.ConnPool.Exchange | src/core/pool.c:587-605 | the request is off the connection, which keeps its role, and is placed again if nothing came back, else delivered |
| Pool.ConnPool.EndExchange | src/core/pool.c:587-588 | the request off the active list and the slot free, nothing else |
| Pool.ConnPool.Conclude | src/core/pool.c:593-605 | delivered, or with nothing back placed again on a retry if it has one |
| Pool.ConnPool.OnStreamEnd | src/core/pool.c:1105-1160 | the request routed under that stream id is delivered, or without a status placed again on a retry |
| Pool.ConnPool.FindStream | src/core/pool.c:835-838 | the request routed under that stream id, if any |
| Pool.ConnPool.Unroute | src/core/pool.c:840-851 | the routing table without that request |
| Pool.ConnPool.FinishStream | src/core/pool.c:1024-1101 | unrouted and off the active list; delivered, or without a status placed again |
| Pool.ConnPool.RecvEnd | src/core/pool.c:683-688 | the connection is at rest: closed if broken and drained, else nobody waits in vain, and idle if nothing is in flight |
| Pool.ConnPool.RecvError | src/core/pool.c:676-680 | the connection ends up closing and empty, its requests placed again on their retries |
| Pool.ConnPool.OnClosed | src/core/pool.c:814-823 | a live connection ends up closing, broken and empty; an EOF may complete an H1 body first; no request is lost unless a retry's connect can fail at once |
| Pool.ConnPool.Tell | src/core/pool.c:853-858 | the callback fires once while the request is still where it was |
| Pool.ConnPool.ExpireLost | src/core/pool.c:853-876 | a request left on a closing connection is answered and off the books |
| Pool.ConnPool.ForgetLost | src/core/pool.c:859-876 | it is off the lists of its connection and freed, nobody else touched |
| Pool.ConnPool.PassOn | src/core/pool.c:877-882 | the free slot is passed on and the connection settled, with the books in balance |
| Pool.ConnPool.Timeout | src/core/pool.c:853-884 | the timed-out request, lost or not, is delivered once and off the books |
| Pool.ConnPool.CancelStream | src/core/pool.c:853-884 | a cancelled stream leaves lists, counter and routing in step |
| Pool.ConnPool.Sweep | src/core/pool.c:1186-1202 | exactly the idle and the broken, drained connections are closed, their records logged, and exactly the stranded requests lost |
| Pool.ConnPool.FullyClosed | src/core/pool.c:281-287 | exactly that connection leaves the records and conns[] |
| Pool.ConnPool.Burst | src/core/pool.c:296-360 | n >= 1 dispatches to a fresh origin in an empty pool open 1 connection for H2 or H3 and min(n, max, POOL_MAX_CONNS) for H1 |
| Pool.ConnPool.LongBurst | src/core/pool.c:296-360 | n dispatches to an origin over 255 bytes open min(n, POOL_MAX_CONNS) connections whatever the cap, all usable for its first 255 bytes |
| Pool.ConnPool.AnyEvent | src/core/pool.c:362-1202 | any event with any arguments keeps the books, and loses nobody while peers allow a stream and no connect can fail at once |
| Pool.ConnPool.Run | src/core/pool.c:362-1202 | over any run the books balance at every point; the lost are exactly those fallen with a fatal closing; nobody is lost while connecting fails only through the event loop and every H2 peer allows a stream |
| Async.StepConserves | capi/holytls_capi.c:707-799 | every step moves submissions from one place to another and loses or duplicates none |
| Async.StepKeepsAwake | capi/holytls_capi.c:689-740 | every step keeps: a non-empty FIFO with a sleeping consumer has a byte in the pipe or one owed |
| Async.StepKeepsOrder | capi/holytls_capi.c:981-1010 | drained followed by queued is the completion order, at every step |
| Async.StepKeepsStop | capi/holytls_capi.c:744-799 | once on_async has seen stopping the queue is empty and stays so |
| Async.StepKeepsInv | capi/holytls_capi.c:689-1010 | all of it, for every step |
| Async.RunKeepsInv | capi/holytls_capi.c:689-1010 | and for every run |
| Async.NoLostWakeup | capi/holytls_capi.c:689-740 | in every run: while completions wait there is a byte in the pipe, a byte owed, or a consumer that will look again; while submissions wait a wakeup is pending |
| Async.WaitingMeansMovable | capi/holytls_capi.c:981-1010 | while a completion waits some step of the hand-off is enabled |
| Async.HandOffShrinks | capi/holytls_capi.c:689-1010 | every hand-off step leaves less to do |
| Async.HandOffEmpties | capi/holytls_capi.c:689-1010 | so a run of them has a bounded length, and when none is left to take the FIFO is empty |
| Async.AsyncConservation | capi/holytls_capi.c:843-1010 | each accepted submission is in exactly one of queue, batch, in-flight list, FIFO, drained, called back; drains come out in completion order |
| AsyncRoutes.NumberStep | capi/holytls_capi.c:862-900 | all of a push is accepted, or none once stopping |
| AsyncRoutes.QueueInOrder | capi/holytls_capi.c:744-756 | over every run, what left the queue and what is on it are, in order, what was on it and what was accepted |
| AsyncRoutes.FirstInFirstOut | capi/holytls_capi.c:744-756 | from the start, submissions leave the queue in the order they were accepted |
| AsyncRoutes.FlightExactly | capi/holytls_capi.c:758-790 | over every run, in flight are exactly those taken off before the stop was seen and not answered |
| AsyncRoutes.QueueModeRun | capi/holytls_capi.c:708-738 | over every run with a completion queue, the FIFO gets the answered in order and the callback gets the batch taken off after the stop, in order |
| AsyncRoutes.QueueModeCalls | capi/holytls_capi.c:758-766 | from the start, the callback gets that batch and nobody else |
| AsyncRoutes.QueueModeCompletes | capi/holytls_capi.c:722-735 | from the start, drained and waiting completions are the answered requests in order of their responses |
| AsyncRoutes.CallbackModeStep | capi/holytls_capi.c:737-740 | without a completion queue each response calls back exactly its request |
| AsyncRoutes.CallbackModeRun | capi/holytls_capi.c:737-740 | over every run without one, FIFO, drained list and pipe stay as they were, empty, and callbacks happen in order |
| AsyncRoutes.CallbackModeCalls | capi/holytls_capi.c:737-740 | the same from the start |
| AsyncRoutes.CalledCounts | capi/holytls_capi.c:708-766 | each answered request and each one taken off after the stop is called back exactly once |
| AsyncRoutes.ClosingBatch | capi/holytls_capi.c:758-766 | a batch taken off with the stop seen goes to the callback whole and in order, and puts nothing in flight |
| Async.StopIsFinal | capi/holytls_capi.c:954-960 | after stop has been seen nothing is ever accepted or queued again |
| Async.ExitAbandonsInflight | capi/holytls_capi.c:744-799 | what is in flight when the loop exits stays there and is never delivered |
| Async.AtMostOneByte | capi/holytls_capi.c:689-740 | at most one byte is unread in every run in which no drain call gets exactly what it asked for and empties the FIFO by it |
| Async.OneByteRun | capi/holytls_capi.c:689-740 | the invariant behind that, from any state that has it |
| Async.BytesPileUp | capi/holytls_capi.c:689-740 | two more bytes are unread after five steps from any state with two requests in flight and a consumer draining an empty FIFO |
| Async.ExactDrainBreaksBound | capi/holytls_capi.c:981-1010 | the converse: an exact drain with two requests still in flight has a continuation with two bytes unread |
| Async.TwoBytesReached | capi/holytls_capi.c:689-1010 | and a run from the start gets there |
| Async.CopyAll | capi/holytls_capi.c:877-889 | submit_many copies all requests or none |
| Async.SubmitMany | capi/holytls_capi.c:865-909 | the whole batch is one push, or nothing happens, and exactly when |
| Async.Detach | capi/holytls_capi.c:981-998 | a drain takes the first max completions and leaves the rest, nothing lost |
| Async.DrainCall | capi/holytls_capi.c:981-1010 | the call is the drain step, and hands out what that step drains |
| Arena.AlignPow2 | src/base/base.h:50 | the smallest multiple of the alignment at or past the address |
| Arena.PlaceKeeps | src/base/arena.c:132-145 | a bump keeps every live allocation in place and apart from the new one |
| Arena.PlacedApart | src/base/arena.c:132-145 | an older allocation and the new one never share a byte |
| Arena.NextKeeps | src/base/arena.c:146-149 | moving to the next block keeps the invariant and raises the position |
| Arena.GrowKeeps | src/base/arena.c:150-153 | a new block clear of the others keeps the invariant |
| Arena.RoomIff | src/base/arena.c:132-139 | a block has room exactly if the next aligned address leaves space for the size |
| Arena.FitsHere | src/base/arena.c:132-145 | a push that fits behind the next aligned address of the current block stays there, at that address, and adds no block |
| Arena.TargetReaches | src/base/arena.c:166-169 | the block the search stops at contains the position |
| Arena.PopFitsIff | src/base/arena.c:166-171 | the block rewound to holds no more than its capacity exactly if the position lies inside the blocks |
| Arena.PoppedOne | src/base/arena.c:170-178 | an allocation that ends by the position survives, even an empty one at a block boundary |
| Arena.PopKeeps | src/base/arena.c:166-178 | a rewind restores the position exactly and keeps all that was live below it aligned, in its block and disjoint |
| Arena.Arena.constructor | src/base/arena.c:89-102 | one empty block of the size asked for, 65536 by default, at position 0 |
| Arena.Arena.Grow | src/base/arena.c:61-87 | one more block, empty, behind the last |
| Arena.Arena.NextBlock | src/base/arena.c:146-153 | the next reset block, or a new one of the block size, or of size + align if that is more |
| Arena.Arena.Bump | src/base/arena.c:132-145 | the smallest aligned address at or past the block's top, inside the block, added to the live allocations, and the position behind it |
| Arena.Arena.Push | src/base/arena.c:128-154 | one more live allocation, at the smallest aligned address of the first block from the current one that has space for it, else at the first of a new block of the right size; every block passed over is too full; position exact |
| Arena.Arena.FindRoom | src/base/arena.c:132-153 | the first block with room, or a new one that has it |
| Arena.Arena.FindTarget | src/base/arena.c:166-168 | the first block that reaches the position, or the last |
| Arena.Arena.Rewind | src/base/arena.c:170-178 | the block cut back to the position, every later one reset |
| Arena.Arena.PopTo | src/base/arena.c:166-178 | for any position: position exactly as asked, blocks in place, allocations below kept, and the arena in order afterwards exactly if the position lies inside the blocks |
| Arena.Arena.Clear | src/base/arena.c:180-180 | position 0, nothing live |
| Arena.Arena.TempBegin | src/base/arena.c:182-185 | the position saved |
| Arena.Arena.TempEnd | src/base/arena.c:187-187 | the saved position back exactly, the allocations live at temp_begin kept |
| Arena.Arena.Run | src/base/arena.c:128-187 | any script of pushes and nested temporaries keeps what was live in place and never falls below where it began |
| Arena.Arena.RunScoped | src/base/arena.c:182-187 | a whole temporary, whatever runs inside, leaves position and live allocations as they were |
| H3.ReadVarint | src/h3/h3_control.c:57-71 | the loop reads the value the format defines, 0 consumed if it is cut |
| H3.VarintRoundTrip | src/h3/h3_control.c:34-71 | reading back any value below 2^62 with any bytes behind it |
| H3.VarintExact | src/h3/h3_control.c:34-71 | a 64-bit value survives if and only if it is below 2^62 |
| H3Wire.VarintIsBigEndian | src/h3/h3_control.c:34-55 | a varint is the number, big-endian, in the shortest of 1, 2, 4 and 8 bytes, with the length in its top two bits (section 16 of RFC 9000) |
| H3Wire.VarintReads | src/h3/h3_control.c:57-71 | any bytes, minimal or not, read as their top two bits and their big-endian rest say, and not at all if they are cut |
| H3.FirstFrameRoundTrip | src/h3/h3_control.c:145-151 | one frame read back off the front of any stream |
| H3.ParseEncode | src/h3/h3_control.c:144-173 | parsing inverts encoding for every list of frames |
| H3.FinishResponse | src/h3/h3_session.c:231-266 | although the buffer is overwritten while it is parsed, the body prefix is the concatenation of the payloads of the type-0 frames of the bytes received, and the header blocks are those of type 1 as received |
| H3.BodyIsTypeZero | src/h3/h3_session.c:255-261 | the body is what the frames of type 0 carry, the header blocks what those of type 1 carry |
| H3.Consume | src/core/pool.c:1038-1091 | one frame of that loop: unparsed bytes stay put |
| H3.Deliver | src/h3/h3_session.c:249-263 | a payload joins the body or the header blocks, or neither, by its frame type; unparsed bytes stay put |
| H3.Take | src/h3/h3_session.c:257-261 | one payload joins the body in place |
| H3.MemoryMove | src/h3/h3_session.c:258-260 | the move and what it leaves alone |
| H3.ReadHead | src/h3/h3_session.c:242-251 | type, length and clipped payload of the next frame |
| H3.BuildPriorityUpdate | src/h3/h3_control.c:80-91 | one PRIORITY_UPDATE frame for the stream |
| H3.BuildSettings | src/h3/h3_control.c:99-109 | the settings in order, then the GREASE one |
| H3.BuildControlStream | src/h3/h3_control.c:93-127 | the stream type followed by exactly the frames of the profile |
| H3.WalkSettings | src/h3/h3_control.c:153-168 | the inner loop labels exactly the settings of the payload |
| H3.WalkControl | src/h3/h3_control.c:136-173 | the walk labels exactly the frames of the stream, a cut last one included |
| H3.PairsRoundTrip | src/h3/h3_control.c:99-109 | the settings payload gives back the settings in order |
| H3.ControlRoundTrip | src/h3/h3_control.c:93-173 | walking a built stream recovers every frame and byte: ordered settings, GREASE, and the PRIORITY_UPDATE with its stream id and value |
| H3.ControlText | src/h3/h3_control.c:131-173 | the frame part of the fingerprint text of a built stream, item by item |
| H3Wire.ResponseOnTheWire | src/h3/h3_session.c:242-266 | the bytes of a response of four short frames, one of another type, read as its header block and its body |
| H3Wire.ControlNumbers | src/h3/h3_control.c:7-127 | which frames a control stream carries, with their type numbers, the GREASE setting and the priority text |
| H3Wire.ControlOnTheWire | src/h3/h3_control.c:93-127 | the bytes of a control stream without settings, with GREASE frame and priority update |
| H3Wire.ReservedIff | src/h3/h3_control.c:153-173 | reserved numbers are those of the form 31 * n + 33; the text says GREASE for them, and the numbers otherwise |
| Dates.DaysCount | src/core/cookie.c:31-38 | the closed form is the count of days since 1970-01-01, for every year and month |
| Dates.NextDay | src/core/cookie.c:31-38 | the next calendar day is exactly one more, 1970-01-01 is 0 |
| Dates.DaysOrdered | src/core/cookie.c:31-38 | an earlier valid date has a smaller number |
| Dates.EpochOrdered | src/core/cookie.c:91-100 | from 1970 on the epoch keeps the strict order of valid date-times |
| Dates.EpochIs | src/core/cookie.c:91-100 | from 1970 on the epoch is days counted, times 86400, plus the seconds of the day |
| Dates.EpochBegins | src/core/cookie.c:91-100 | it is 0 as 1970 begins |
| Dates.EpochCounts | src/core/cookie.c:91-100 | and one more every second after, through minutes, hours, months and leap years |
| Dates.TwoDigitYears | src/core/cookie.c:91-94 | two-digit years from 70 on are 19xx, those below 20xx |
| Dates.BadFieldsFail | src/core/cookie.c:94-98 | a field out of range, or a year before 1601, gives 0 |
| Dates.BeforeEpochIsZero | src/core/cookie.c:91-100 | a valid date-time from 1601 to 1969 gives 0, like a failure |
| Text.ToU64 | src/base/string8.c:85-95 | the number the leading digits spell, saturated at 2^64 - 1 |
| Text.Chop | src/base/string8.c:43-50 | the head up to the first delimiter and what follows it |
| Text.MatchCiTrans | src/base/string8.c:16-21 | matching without case is transitive |
| Text.LowerIs | src/base/string8.h:67-70 | exactly the 26 capital letters change |
| Text.SpacesAre | src/base/string8.h:46-49 | the six white-space bytes |
| HostNames.SameLabels | src/base/string8.c:16-21 | two names have the same labels exactly if they match ignoring case |
| HostNames.LabelsSplit | src/core/cookie.c:118-124 | a dot ends a label |
| Psl.TableHas | src/core/psl.c:11-23 | on every sorted table the binary search says yes exactly for members |
| Psl.CompareTrans | src/core/psl.c:15-15 | the byte order is transitive |
| Psl.IsPublicSuffix | src/core/psl.c:25-46 | the verdict in terms of table membership |
| Psl.ExceptionWins | src/core/psl.c:38-40 | an exception rule wins over everything |
| Psl.SuffixRules | src/core/psl.c:38-46 | without one, a single label is a public suffix, and a longer name exactly if it is listed or one label under a wildcard |
| Psl.SuffixBounds | src/core/psl.c:26-37 | the empty name, a bare dot and 256 bytes or more never are one |
| Psl.CaseInsensitive | src/core/psl.c:30-33 | the verdict does not depend on case |
| Psl.TrailingDot | src/core/psl.c:26-37 | a trailing dot keeps the verdict for every domain but one of 255 bytes, whose dotted form is never a public suffix |
| Psl.TrailingDotCounts | src/core/psl.c:26-37 | and there the verdict does change |
| CookieParse.FindDefaultPath | src/core/cookie.c:144-156 | the path up to its last slash |
| CookieParse.DefaultPathIs | src/core/cookie.c:144-156 | of an absolute path what comes before its last slash, or "/"; of any other "/" |
| CookieParse.DomainMatchIff | src/core/cookie.c:118-124 | a host matches a domain exactly if its last labels are those of the domain |
| CookieParse.PathMatchIff | src/core/cookie.c:132-142 | a path matches exactly if it is the cookie path, or that path with a slash behind it begins it |
| CookieParse.DefaultPathCovers | src/core/cookie.c:132-156 | the default path matches the request it came from exactly when that path is empty or absolute |
| CookieParse.HostIsIp | src/core/cookie.c:106-116 | a colon, or no letter |
| CookieParse.IpOrName | src/core/cookie.c:106-116 | digits and dots, or any colon, make an address; a letter without a colon makes a name |
| CookieParse.ParseAttributes | src/core/cookie.c:255-310 | the loop applies the attributes between semicolons in order |
| CookieParse.ApplyMaxAge | src/core/cookie.c:280-291 | deletion for negative or zero, else the deadline |
| CookieParse.MaxAgeWins | src/core/cookie.c:271-291 | the last Max-Age alone decides the lifetime, wherever Expires appears |
| CookieParse.CheckDomain | src/core/cookie.c:312-335 | whom a Domain attribute may cover |
| CookieParse.DecideScopes | src/core/cookie.c:312-335 | an accepted scope is the setting host itself, or a non-empty domain that is no public suffix and covers it |
| CookieParse.DecideByLabels | src/core/cookie.c:312-335 | exactly when a Domain attribute is accepted for the domain, for the host alone, or not at all, by labels |
| CookieParse.ScopeTheorem | src/core/cookie.c:354-358 | a cookie matches only hosts with the labels of its setter, or ending with it in the labels of a non-empty domain that is no public suffix |
| CookieJar.PutIsUpdate | src/core/cookie.c:224-244 | put is a map update under (name, case-folded domain, path), refused only for a new key in a full jar |
| CookieJar.RemoveIsDelete | src/core/cookie.c:176-181 | removal takes out its key and no other |
| CookieJar.PutUnique | src/core/cookie.c:224-244 | keys stay unique |
| CookieJar.SameKeyIff | src/core/cookie.c:214-222 | two cookies are the same one exactly if name, path and, label by label, domain agree |
| CookieJar.MatchesIff | src/core/cookie.c:354-362 | a cookie matches exactly by labels of the host, path below its own, and https if it is secure |
| CookieJar.AfterInv | src/core/cookie.c:337-343 | storing keeps count, unique keys and scopes |
| CookieJar.KeepReturns | src/core/cookie.c:246-344 | a kept cookie is in its setter's scope, and goes back to it unless path or secure forbid |
| CookieSyntax.AttributeMeans | src/core/cookie.c:262-310 | each attribute as written, with any white space around it, does what it means |
| CookieSyntax.WrittenIsUnderstood | src/core/cookie.c:246-344 | a Set-Cookie value written out from a name, a value and any attributes in any order, with any white space around the separators, is understood as it is meant: kept with its name, value, scope, path, deadline and flags, deleted if expired, ignored if its domain is refused |
| CookieSyntax.NamelessIgnored | src/core/cookie.c:246-258 | a value without a name is ignored |
| CookieSyntax.DigitsSpell | src/base/string8.c:85-95 | decimal digits read back as the number they write |
| CookieJar.StoreRemovesIff | src/core/cookie.c:246-344 | storing removes an old cookie, expired or not, exactly when it deletes or writes over its key |
| CookieJar.StoreKeepsExpired | src/core/cookie.h:58-59 | so an expired cookie stays past a store that names another key |
| CookieJar.ExpiredSurvivesStore | src/core/cookie.h:58-59 | a jar and a Set-Cookie value where that happens |
| CookieJar.UnexpiredExact | src/core/cookie.c:183-190 | exactly the cookies without an expiry, or with one still to come, survive eviction |
| CookieJar.InsertOrdered | src/core/cookie.c:368-375 | inserting behind the paths at least as long keeps the order, stably |
| CookieJar.OrderUnique | src/core/cookie.c:368-375 | there is only one such order |
| CookieJar.Insert | src/core/cookie.c:369-374 | one round of the sort, in place |
| CookieJar.SortByPath | src/core/cookie.c:368-375 | longest path first, jar order among equals, nothing lost or added |
| CookieJar.Join | src/core/cookie.c:376-386 | the header text |
| CookieJar.Jar.constructor | src/core/cookie.c:159-163 | an empty jar of at most 3000 |
| CookieJar.Jar.FindCookie | src/core/cookie.c:214-222 | the first cookie with the key |
| CookieJar.Jar.RemoveAt | src/core/cookie.c:176-181 | the jar without that cookie, invariant kept |
| CookieJar.Jar.EvictExpired | src/core/cookie.c:183-190 | exactly the unexpired cookies, in order |
| CookieJar.Jar.PutCookie | src/core/cookie.c:224-244 | the map update, and whose cookie it now is, if a host set it |
| CookieJar.Jar.Store | src/core/cookie.c:246-344 | the jar after what the Set-Cookie value asks for; count, keys and scopes kept |
| CookieJar.Jar.Select | src/core/cookie.c:354-362 | the matching cookies in jar order |
| CookieJar.ReceiptsProper | src/core/cookie.c:346-387 | what one header sends may go where it goes |
| CookieJar.Jar.CookieHeader | src/core/cookie.c:346-387 | exactly the unexpired domain-, path- and secure-matching cookies, once each, in order, none to a host its setter does not share with |
| CookieJar.Jar.Run | src/core/cookie.c:183-387 | over any run, restores included, every cookie sent was alive, for a path below its own, over https if secure, and if a host set it, went to a host its setter may share with |
| SecFetch.FindRegDomain | src/core/sec_fetch.c:9-23 | the last two labels, found from the right |
| SecFetch.RegDomainAt | src/core/sec_fetch.c:9-23 | behind a dot with one more dot after it lies the registrable domain |
| SecFetch.RegDomainIsLastTwo | src/core/sec_fetch.c:9-23 | the registrable domain is the last two labels, or all of fewer |
| SecFetch.SiteIff | src/core/sec_fetch.c:26-36 | each of the four values exactly when it is due, by scheme, port and labels |
| SecFetch.ComputeSite | src/core/sec_fetch.c:26-36 | the relation of target and referer |
| SecFetch.ComputeSiteForRedirect | src/core/sec_fetch.c:87-102 | the value for the next hop from the last Sec-Fetch-Site and Referer carried |
| SecFetch.SiteRises | src/core/sec_fetch.c:80-102 | the rank never falls in one hop, and "none" and "cross-site" stay |
| SecFetch.SiteWidens | src/core/sec_fetch.c:87-102 | a value that can still change becomes itself or the relation to the next host, whichever is wider; nothing is sent exactly if site or referer is missing |
| SecFetch.Ranks | src/core/sec_fetch.c:80-85 | none lowest, then same-origin, same-site, cross-site |
| Redirect.FindLocation | src/core/client.c:1487-1492 | the first Location header |
| Redirect.LocationIsFirst | src/core/client.c:1487-1492 | the value of the first Location header, empty without one |
| Redirect.FollowsIff | src/core/client.c:1454-1520 | a hop is taken exactly on 301, 302, 303, 307 and 308 with a Location that resolves to https; where it goes, with which method and headers |
| Redirect.CarriedCat | src/core/client.c:1506-1518 | headers are carried one by one in order |
| Redirect.CarriedOne | src/core/client.c:1506-1518 | each as it is, but for the headers of a dropped body, Authorization to another host, and Sec-Fetch-Site |
| Redirect.Carry | src/core/client.c:1506-1518 | the next hop's headers, in order |
| Redirect.PrepareHop | src/core/client.c:1483-1520 | deliver or follow, with URL, method, body and headers of the next hop |
| Redirect.HopHeaders | src/core/client.c:1506-1518 | Authorization survives only to the same host, content headers only with the body, and neither appears from nowhere |
| Redirect.HopSite | src/core/client.c:1501-1517 | the Sec-Fetch-Site in force after a hop is the one computed for it |
| Redirect.EveryRankKept | src/core/client.c:1501-1517 | with several Sec-Fetch-Site headers each keeps its rank exactly when none outranks the value written |
| Redirect.EarlierHeaderLowered | src/core/client.c:1501-1517 | and an earlier, higher one is lowered |
| Redirect.HopFacts | src/core/client.c:1483-1557 | all that one hop guarantees |
| Redirect.AuthorizationStaysHome | src/core/client.c:1500-1512 | Authorization at hop k: hops 0 to k went to one host, ignoring case |
| Redirect.AuthorizationIff | src/core/client.c:1500-1512 | Authorization is at hop k exactly if it was there at the start and every hop stayed on its host |
| Redirect.DroppedStaysDropped | src/core/client.c:1454-1466 | a dropped body never returns, its content headers are gone, and the method is GET for good |
| Redirect.UndroppedUnchanged | src/core/client.c:1454-1466 | until then body and method are the original ones |
| Redirect.ChainHasResponses | src/core/client.c:1542-1557 | every chain comes from some responses |
| Redirect.StatusesDecide | src/core/client.c:1454-1466 | along a chain of any length the request is the original one, verb and body, until a 303, or a 301 or 302 to a POST, makes it a bare GET for good; 307 and 308 never do |
| Redirect.SiteNeverFalls | src/core/sec_fetch.c:80-102 | along a chain of any length the rank of the Sec-Fetch-Site in force never falls, and "none" and "cross-site" are absorbing |
| Redirect.RedirectState.constructor | src/core/client.c:1522-1540 | the first dispatch |
| Redirect.RedirectState.OnResponse | src/core/client.c:1542-1557 | one more dispatch of the chain or the delivery, and exactly when |
| Redirect.RedirectState.TakeHop | src/core/client.c:1542-1557 | the trace grows by exactly that hop |
| Redirect.RedirectState.Run | src/core/session.c:151-162 | at most max_redirects + 1 dispatches, whatever the servers answer |

## Left out

- TLS, QUIC, nghttp2, nghttp3, picohttpparser, compression, JSON and libuv: foreign code, met as arbitrary events or parameters.
- Weak-memory effects in the ring and wrap-around of its 64-bit offsets: steps are atomic, offsets are naturals.
- ra_reset, ra_free, ra_used and the memory-mapping helpers: easy members.
- Pool.ConnPool.Run: covers no `pool_drain` and no `pool_evict_all`; both close connections without re-homing their queues.
- Pool.ConnPool.Timeout: does not match later bytes on an H1 connection to requests, because the timeout does not end the H1 exchange. It does not cover a lost request whose connection record has been released: the request's timer still fires, and `src/core/pool.c:856-875` then reads that record, which has no meaning to model.
- Pool.ConnPool.Open: keeps the record of an H3 connection whose connect fails before it has any handle (`src/net/quic_connection.c:142`). In the code that record is released within the call (`src/net/quic_connection.c:943-944`, `src/core/pool.c:1174-1183`), and `src/core/pool.c:335-336` then queues the request on it; in the model it stays, closing, until `FullyClosed`. The request is left behind either way.
- Pool.ConnPool.Dispatch: URL validation, header building, statistics, timers and loop references are not modelled; allocation does not fail.
- Async.AsyncConservation: allocation failure after acceptance is not modelled; the linked lists are sequences, so pointer surgery in the in-flight list and FIFO is not.
- Async.HandOffEmpties: says how few steps empty the FIFO, not that a scheduler takes them.
- Arena: the recycle pool, scratch arenas, poisoning and statistics; sizes are naturals, so `size + align` does not overflow.
- H3.BuildControlStream: the pseudo-header part of the fingerprint text and its separators are not modelled.
- H3: QPACK decoding of HEADERS blocks, stream reset and flow control.
- The tokenizer of http_date_parse: the fields it finds are parameters of `Dates.EpochOf`.
- CookieParse.ParseAttributes: several Expires attributes without a Max-Age are applied as the code does, with no further claim.
- CookieJar.Jar.PutCookie: nothing is promised of where a cookie restored from a saved session may go.
- cookie_jar_get, cookie_jar_remove and the array doubling of cookie_jar_push: easy members; the array is a sequence.
- The generated public-suffix data: the tables are parameters.
- Redirect.RedirectState.OnResponse: proxy, deadline, header order and timing travel along unchanged and are not modelled; neither is the cookie header the session adds per hop.
- Client setters, foreign-function wrappers, WebSocket and stream wrappers, persistence, benchmarks and examples.
