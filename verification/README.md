# Verification of the analog arrays, DMA audits, work partitioner and deadlock certificate

A Dafny project that models the repository's most intricate logic and proves what it is for. `dafny verify
dfyconfig.toml` checks all of it.

| directory | models |
|---|---|
| `arrays/` | the analog-array component: command admission with promises, queue, overlapped transfers and computes, link arbitration, programming epochs |
| `deadlock/` | wait edges, Tarjan's strongly connected components and the certificate built from them |
| `partition/` | longest-processing-time placement and the three local searches that refine it |
| `audits/` | acceptance and accounting of the materialized DMA table, greedy run packing, affine packing |
| `cost/` | the controller service equation and the summaries computed from request-size histograms |
| `attributes/` | splitting and delimiting of attribute text |
| `common/` | sums over sets, sorted sets, rounding up, lexicographic order, iteration |

## How it is built

**The analog arrays.** `Engine.dfy` and `Admission.dfy` describe one step of one array and of the component as
functions on values, branch by branch as in the C++ source; a check that would stop the simulation sets a
sticky `fault` flag. `AnalogArrays.dfy` is the component in the source's own form: a class `Array` and a
class `AnalogArrays` whose methods update fields in place, with the source's loops; every method is proved to
compute its step function. `Serial.dfy` is the independent meaning: accepted commands take effect one at a
time, with a first-in first-out queue of results and no timing. `Invariant.dfy` ties the two together: the
serial state after all accepted commands equals the array's state with the running compute, the active
transfer and the queued commands applied, in that order. `Stepping` to `Cycle` and `Arrivals` prove that
every step keeps the invariant, `Runs` lifts it to all arrays and to every run, `Theorems` reads off the
guarantees. `Stale`, `Held` and `Resident`, `Refusals`, `Drain` and `Quiescence`, `LinkTiming`, `Contention` and
`Delivery` prove the remaining properties: no stale data, weights held for a compute, what a refusal leaves,
drainage, and how long a transfer takes in a run. `History.dfy` says what an array answers in terms of the accepted
commands alone, without states; `Explained` proves that the interpreter does what it says and `RunHistory` that
every reply of every run tells it. `Acceptance` says what every arrival is answered, `Protocol` in which order the
replies about a command come, `Delays` when Executes and Programs complete, `Fairness` how long contention lasts,
`Eagerness` that nothing waits that could start.

**The certificate.** `Tarjan.dfy` is the recursive search as a class with the source's six variables, proved
with an invariant on white, gray and black nodes (`TarjanState.dfy`). `Functional.dfy` is the sharper theory of
graphs with at most one arc from each node, which wait edges always form. `DeadlockReport.dfy` says what the
certificate tells about snapshots and routes.

**The partitioner.** `Greedy.dfy` proves Graham's bound for any placement, in decreasing order of weight, that always
picks a least loaded thread; `Lpt.dfy` shows that the source's placement is one. The searches are methods with the source's loops;
their incremental totals are proved equal to recomputation after every step, and scores are compared
lexicographically as Python compares tuples. The searches assume symmetric edge weights; `Mesh.dfy` proves that
the mesh adjacency and the router statistics always give such weights. `Optimum.dfy` and `PhaseOptimum.dfy` say on
assignments alone, with cut, loads, active tiles and critical load recomputed, what the searches look for and how a
trial ends.

**The audits.** Requests are described twice: as batches of a size, which histograms count, and as single
moves between addresses. Packing is shown to keep the copied bytes (`Copies`, `RunCopies`), the byte totals, and
never to add a request; `Packing.dfy` proves that the greedy split is the cheapest of all. `Tallies.dfy` says what
the counters of packable segments mean, `TableAudit.dfy` holds the loops that compute them. `Requirements`, `Joining`
and `Lines` say on the fields of the table which tables are accepted, what the totals are, which descriptors share a
request and how many requests a segment needs; `RunCounters` and `AffineCounters` say what the audits count.

## Where code and documentation differ

- `src/components/analog-arrays/README.md:66` says that rejected commands do not modify array state. A deferred
  Program that is refused because accepted Programs will close the epoch leaves the projection bitmap allocated
  (`analogArrays.cc:262-269`). `Refusals` gives a concrete case and proves that this is the only one.
- The final check that every thread has an active tile (`generate-sculptor-sst-work-partition.py:842-846`) always
  passes when weights come from the audit. With profile weights it may fail for an input with as many active tiles
  as threads: `Trial.ProfileWeightsFail` carries three tiles of weights 1, 1 and 10 on a 1 x 3 mesh through placement
  and searches to the failing check. `Trial.Generate` says, for all inputs and both kinds of weights, when it passes
  and when it fails: it passes when the heaviest tiles, one for each thread, are active and have weight
  (`LptPartition.LptReachesActive`), and whenever the initial placement reaches every thread; it fails whenever an
  inactive tile is heavier than the load cap, because such a tile holds a thread alone and no search moves it or
  adds to it (`Trial.StuckStaysAlone`).
- The defensive refusal of a Program while results are pending (`analogArrays.cc:443-447`) and the
  `repeat` strategy of the affine audit (`validate-sculptor-materialization-audit.py:574-589`) are unreachable: the
  first is part of the step function and the invariant excludes it, the second is part of
  `AffineAudit.PackSegment`, whose contract gives the strategy chosen, and `TableAudit.AffineSegmentRunAudit` says that
  its counter stays zero.

## Modelling decisions

- Time, tokens, byte counts and weights are unbounded naturals. Clock readings are parameters of `Tick`; a run
  is any interleaving of arrivals and cycles, and drainage assumes increasing clock readings.
- Single-precision values are 32-bit words. The dot product of a weight row and the input is an arbitrary
  function in `Config`, applied to exactly the active part of the row and of the input; rounding is outside.
- Related fields of the C++ record are grouped into values (`Transfer`, `Memory`, `Output`, `Compute`,
  `Projection`), and the chunk map is a sequence in offset order. `log`, `sent` and the ordinals of entries are
  history: commands accepted and replies sent about them. An immediate Busy or Error is the result of `Command`.
- A result slot does not store copies of the active dimensions: Configure is refused while a slot is in use, so
  the dimensions of the array are the ones the slot would have copied.
- Random shuffles are arbitrary permutations; the result of the exchange search is proved not to depend on them.
- Phase work and the load cap are reals; the threshold of the phase search is the source's 1e-9.
- Iteration over Python dictionaries and sets takes their elements in any order.
- Routes of the certificate come from an arbitrary `Loader`; a missing or malformed route is its `None`.
- DMA fields are naturals, because the record parser refuses negative ones; role flags are bits 4 and 5.
- White space in attribute text is an arbitrary predicate on characters.

## Model

| member | source | states |
|---|---|---|
| ArrayTheorems.NoCheckFails | src/components/analog-arrays/analogArrays.cc:334-365 | In every run, for any parameters, number of arrays and interleaving of arrivals and cycles, none of the checks that would stop the simulation ever holds: a guaranteed command neither fails nor is refused, a guaranteed Store keeps and starts on its reserved result, no command ends with a live chunk, a compute finds its output slot, input is captured only when consumed |
| ArrayTheorems.RepliesAreSerial | src/components/analog-arrays/analogArrays.cc:405-452 | Status and payload of every Complete or Error reply are those of an in-order interpreter of the accepted commands with a FIFO of results, although Stores overtake blocked Executes and transfers overlap computes |
| ArrayTheorems.PromisesAreKept | src/components/analog-arrays/commands.h:13-24 | A command answered Guaranteed or Started never ends in Error |
| ArrayTheorems.AnsweredExactlyOnce | src/components/analog-arrays/README.md:62-66 | Every accepted command has exactly one terminal reply once it is no longer waiting, transferring or computing, and none before |
| RunHistory.RepliesTellHistory | src/components/analog-arrays/analogArrays.cc:303-478 | In every run the accepted commands have a true history that every reply tells: a command completes exactly when its weights, inputs, pending results and dimensions allow it, and a Complete Store(offset, count) carries exactly 4 * count bytes, the little-endian words of the dot products of rows offset to offset + count - 1 of the weights last programmed with the inputs last loaded, both before the Execute it had to read and since the last Configure: in pipelined mode the oldest result not completely read, in blocking mode the last one while still valid |
| Explained.HistoryIsTrue | src/components/analog-arrays/analogArrays.cc:289-452 | Any log of legal commands has such a history: the in-order interpreter does each command exactly when the commands done before it say that it can be done |
| History.HistoryUnique | src/components/analog-arrays/analogArrays.cc:289-452 | A log has one history: which commands are done, and which result each Store reads, is determined |
| Explained.EncodedElement | src/components/analog-arrays/analogArrays.cc:28-35 | Four bytes of an encoded element, the lowest first, give back the element |
| Explained.ComputedRow | src/components/analog-arrays/analogArrays.cc:390-395 | Element r of a result is the dot product of the last words programmed into row r and the last words loaded |
| Protocol.RepliesInOrder | src/components/analog-arrays/commands.h:13-24 | In every run the replies about a command come in order: Accepted, or Guaranteed only when deferred; Captured exactly for deferred Programs and Loads, once every input byte has been consumed; Started exactly for pipelined Executes; then Complete, or Error straight after the first, and nothing more. A waiting command has only the first, one on its way the first and its report |
| ArrayTheorems.TokensAreLive | src/components/analog-arrays/analogArrays.cc:208-215 | The token set holds exactly the tokens of waiting, transferring or computing commands, and arrays share no live token |
| ArrayTheorems.TransferIsCopy | src/components/analog-arrays/analogArrays.cc:465-502 | complete + buffered = issued at every point, at most one chunk is live, the received bytes are a prefix of the payload, and at completion they are the payload with nothing buffered |
| ArrayTheorems.CoverageIsExact | src/components/analog-arrays/analogArrays.cc:235-249 | Received weights stay inside the active rectangle; the counter reaches activeRows * activeCols exactly when every active cell has been received; in the initial scope the delay has been charged once exactly when the epoch is closed |
| Stale.NoStaleData | src/components/analog-arrays/analogArrays.cc:176-206 | Two arrays of any two runs that completed the same Configure and accepted the same commands since give equal statuses and payloads, whatever was stored before |
| Stale.VerdictsAfterConfigure | src/components/analog-arrays/analogArrays.cc:190-202 | Serially, answers after an accepted Configure do not depend on the commands before it |
| Resident.WeightsAreHeld | src/components/analog-arrays/analogArrays.cc:250-257 | Through any cycles and arrivals, while a result slot of an array stays in use none of its weights changes: a compute uses the weights that were resident when it started |
| Held.CycleHolds | src/components/analog-arrays/analogArrays.cc:443-447 | One cycle of an array with a result slot in use changes no weight |
| Refusals.RefusedKeepsComponent | src/components/analog-arrays/README.md:66 | An Error or Busy answer leaves the whole component unchanged if and only if the command is not the first deferred Program of an epoch that accepted Programs will already close |
| Refusals.RefusedUnchanged | src/components/analog-arrays/analogArrays.cc:258-273 | The same for one array, and what is left behind otherwise: the allocated projection |
| Refusals.RefusalLeavesProjection | src/components/analog-arrays/analogArrays.cc:261-269 | A concrete refused command that changes the array, against the documented promise |
| Quiescence.TickLowers | src/components/analog-arrays/analogArrays.cc:574-612 | Every cycle keeps a work measure from growing and lowers it strictly unless every array is idle or stuck behind a blocked Execute |
| Quiescence.RunDrains | src/components/analog-arrays/analogArrays.cc:405-452 | From any state of a chronological run, without new commands finitely many cycles bring the component to rest, where an array still holds commands only behind an Execute facing two unread results with no Store queued, and every other accepted command has exactly one terminal reply |
| Quiescence.SettledStays | src/components/analog-arrays/analogArrays.cc:574-598 | A component at rest stays as it is until a command arrives |
| Drain.ArrayCycle | src/components/analog-arrays/analogArrays.cc:574-596 | The cycle of one array never adds work; an unsettled array loses work, wants link service or waits for a delay |
| Drain.UnsettledStarts | src/components/analog-arrays/analogArrays.cc:405-452 | An idle array that is not settled starts or refuses something at once |
| Eagerness.NothingLeft | src/components/analog-arrays/analogArrays.cc:405-452 | Four attempts start a transfer or leave nothing in the queue that could start |
| Eagerness.StartsAtOnce | src/components/analog-arrays/analogArrays.cc:405-452 | In every run, a waiting command that may start leaves the queue in the next cycle: an Execute at the head once the engine and one of the two results are free, also during a Store; anything else at the head once nothing is transferred; and the first Store behind an Execute that must wait |
| Eagerness.NothingWaitsIdly | src/components/analog-arrays/analogArrays.cc:574-596 | In every run of pipelined arrays, after a cycle in which no command completed and no transfer began, nothing that waits could start; there are never more than two results |
| Eagerness.NothingOverdue | src/components/analog-arrays/analogArrays.cc:574-596 | In every run, after a cycle no execution time and no programming time has run out: what was due has completed in it, also with no delay at all |
| LinkTiming.WidthIsRespected | src/components/analog-arrays/analogArrays.cc:554-572 | In one cycle at most linkWidth bytes cross in each direction, and at most that together on a shared link |
| LinkTiming.LoneLatency | src/components/analog-arrays/analogArrays.cc:481-498 | A transfer of B bytes that has just begun has floor(B/I)*ceil(I/W) + ceil((B mod I)/W) link cycles left |
| LinkTiming.LoneCountdown | src/components/analog-arrays/analogArrays.cc:489-502 | Without contention that count falls by one every cycle, and is zero exactly when the last byte is consumed |
| LinkTiming.AloneCountsDown | src/components/analog-arrays/analogArrays.cc:574-598 | The same for the whole component, while no other array has a transfer on the link |
| Delivery.EveryTransferBegan | src/components/analog-arrays/analogArrays.cc:303-332 | Every transfer that a run has under way began in one of its cycles: the state before that cycle, the cycle, and the events since |
| Delivery.StartingCycle | src/components/analog-arrays/analogArrays.cc:574-598 | In the cycle it begins in a transfer already gains up to linkWidth bytes; alone on the link it has one cycle less than the closed formula left |
| Delivery.AloneTakesExactly | src/components/analog-arrays/analogArrays.cc:465-572 | In every run, a transfer alone on the link from the cycle it begins in consumes its last byte exactly floor(B/I)*ceil(I/W) + ceil((B mod I)/W) cycles after that cycle, and not before, whatever arrives meanwhile |
| Contention.CycleGain | src/components/analog-arrays/analogArrays.cc:554-572 | Whatever the other arrays do, a transfer gains at most linkWidth bytes in a cycle |
| Delivery.NeverSooner | src/components/analog-arrays/analogArrays.cc:465-572 | In every run, however the link is shared, the last of B bytes is consumed no fewer than ceil(B/W) cycles after the cycle the transfer began in |
| Fairness.CursorCounts | src/components/analog-arrays/analogArrays.cc:571 | After any run the cursor is the number of cycles so far modulo the number of arrays |
| Fairness.CycleTurn | src/components/analog-arrays/analogArrays.cc:554-572 | A cycle that begins with the cursor at an array gives its transfer the whole width |
| Fairness.ContentionIsFair | src/components/analog-arrays/analogArrays.cc:554-572 | In every run, whatever the other arrays transfer and whatever arrives, a transfer that needs n link cycles alone is delivered at the latest n times the number of arrays cycles after its first |
| Delays.DelayIsExact | src/components/analog-arrays/analogArrays.cc:385-403 | In every run a command counting down a delay goes on counting while every cycle is before its deadline, and the first cycle at or after the deadline completes it |
| Delays.ExecuteTakes | src/components/analog-arrays/analogArrays.cc:367-403 | An Execute that starts in the cycle at t completes in the first cycle at or after t + execCost and in no earlier one, in both modes |
| Delays.ProgramTakes | src/components/analog-arrays/analogArrays.cc:505-544 | A Program whose last byte is consumed in the cycle at t stays active and completes in the first cycle at or after t + programCost; in the initial scope only the one that completes the active weights is charged, and the others complete at once |
| Runs.Reachable | src/components/analog-arrays/analogArrays.cc:208-287 | Every state of every run satisfies the invariant that ties the arrays to the serial meaning |
| Runs.TickOk | src/components/analog-arrays/analogArrays.cc:574-598 | A cycle of all arrays and the link keeps the invariant |
| Runs.SubmitOk | src/components/analog-arrays/analogArrays.cc:208-287 | An arriving command, accepted or not, keeps the invariant |
| Cycle.TickArraySound | src/components/analog-arrays/analogArrays.cc:579-590 | One cycle of one array keeps the invariant and retires exactly the tokens of finished commands |
| Cycle.StartPipelineSound | src/components/analog-arrays/analogArrays.cc:405-452 | Any number of start attempts keeps the invariant, Stores overtaking blocked Executes included |
| Cycle.StartSound | src/components/analog-arrays/analogArrays.cc:289-301 | The same for the start of the next command in blocking mode |
| Cycle.ProgressSound | src/components/analog-arrays/analogArrays.cc:465-544 | The transfer engine keeps the invariant |
| Commute.PrefixSwap | src/components/analog-arrays/analogArrays.cc:417-423 | Commands a Store may pass can be performed before or after it with the same answers and the same state |
| Commute.TakeSim | src/components/analog-arrays/analogArrays.cc:410-435 | Performing the selected command before those queued ahead of it changes no answer |
| Commute.ExecutePassesStore | src/components/analog-arrays/analogArrays.cc:412-416 | An Execute that starts while a Store is being transferred commutes with its effect |
| Arrivals.ArriveSound | src/components/analog-arrays/analogArrays.cc:208-287 | Whatever arrives, the invariant holds afterwards, and the status says what was added to the log and the token sets |
| Arrivals.PromiseSound | src/components/analog-arrays/analogArrays.cc:274-284 | What admission promises is true serially: a guaranteed command will succeed, a guaranteed Store will read the result it reserves |
| Acceptance.EveryArrival | src/components/analog-arrays/analogArrays.cc:208-287 | In every state of every run, the answer to any arriving command from its fields and what the array holds: Error when it is malformed, leaves the active rectangle, programs a closed epoch or programs while results are pending; Busy when four commands are unanswered; Error for a deferred Program of an exhausted epoch; otherwise accepted, and then promised exactly when it is deferred and moves no outputs or its result is certain. A Configure completes exactly when every accepted command has been answered and it can serially be done |
| Acceptance.RegionExact | src/components/analog-arrays/analogArrays.cc:236-244 | The tests on first and last row and column accept exactly the ranges all of whose cells lie in the active rectangle |
| Acceptance.FirstProjection | src/components/analog-arrays/analogArrays.cc:113-124 | The first deferred Program of an epoch finds exactly the cells received and those of the Programs on their way |
| Acceptance.StorePromise | src/components/analog-arrays/analogArrays.cc:126-174 | With no other Store on its way a deferred Store is promised exactly when a result slot is in use; in blocking mode, with nothing on its way, when the output is valid |
| Arrivals.ConfigureSound | src/components/analog-arrays/analogArrays.cc:183-205 | A successful Configure keeps the invariant and frees or takes no token |
| Promises.ProjectedStore | src/components/analog-arrays/analogArrays.cc:126-156 | The projected result of a further Store is the one it will serially read, and earlier reservations still agree |
| Promises.ProjectedBlockingStore | src/components/analog-arrays/analogArrays.cc:158-174 | Blocking mode: when the output is projected valid, a further Store will succeed |
| Promises.InitializeProjects | src/components/analog-arrays/analogArrays.cc:113-124 | A freshly allocated projection covers everything accepted Programs will have covered |
| Promises.ProjectedProgram | src/components/analog-arrays/analogArrays.cc:261-273 | A deferred Program admitted while the projection is not full cannot meet a closed epoch |
| Starting.BeginReserved | src/components/analog-arrays/analogArrays.cc:322-326 | A Store that starts finds the result reserved for it at the front |
| Starting.BeginFetch | src/components/analog-arrays/analogArrays.cc:303-332 | Beginning a transfer fails no check, and the bytes a Store fetches are those it serially reads |
| Starting.RejectSound | src/components/analog-arrays/analogArrays.cc:358-365 | A command refused at its start was never promised |
| Starting.ComputeSound | src/components/analog-arrays/analogArrays.cc:367-383 | Starting a compute into a free slot keeps the invariant |
| Stepping.ProgressComputeSound | src/components/analog-arrays/analogArrays.cc:385-403 | Finishing a compute fills the slot reserved for it with the serial result |
| Completion.CompleteStore | src/components/analog-arrays/analogArrays.cc:341-355 | Completing a Store delivers its serial payload and releases the result once every row has been read |
| Completion.CompleteProgram | src/components/analog-arrays/analogArrays.cc:526-542 | Committing and completing a Program has its serial effect |
| Completion.CompleteLoad | src/components/analog-arrays/analogArrays.cc:537-542 | The same for Load |
| Completion.CompleteExecute | src/components/analog-arrays/analogArrays.cc:469-478 | The same for Execute in blocking mode |
| Completion.RowsRead | src/components/analog-arrays/analogArrays.cc:343-346 | The row counter of a result reaches its size exactly when every row has been read, overlapping reads included |
| Programming.MarkedCoverage | src/components/analog-arrays/analogArrays.cc:509-512 | A legal range extends coverage inside the active rectangle, and the counter equals rows * cols exactly when all of it is covered |
| Programming.ReceiveSound | src/components/analog-arrays/analogArrays.cc:505-524 | Receiving the last byte of a Program extends coverage once and closes the epoch exactly when it is complete |
| Moving.MoveSound | src/components/analog-arrays/analogArrays.cc:481-498 | One cycle of the chunk buffer keeps the invariant |
| Moving.ReleaseOk | src/components/analog-arrays/analogArrays.cc:481-488 | A released input chunk lands at its own offset and extends the received prefix |
| Moving.CaptureSound | src/components/analog-arrays/analogArrays.cc:454-463 | Captured is sent once, after the last byte was consumed, and changes nothing else |
| Serial.VerdictStable | src/components/analog-arrays/analogArrays.cc:285-286 | Accepting further commands changes no earlier answer |
| Vectors.CountCovered | src/components/analog-arrays/analogArrays.cc:546-552 | A bitmap inside the rectangle holds rows * cols cells exactly when it covers the rectangle |
| Vectors.CountMark | src/components/analog-arrays/analogArrays.cc:546-552 | The counter advanced by the newly covered cells keeps counting the bitmap |
| Vectors.DecodeEncode | src/components/analog-arrays/analogArrays.cc:18-35 | Words written from register bytes and read back are the same bit patterns |
| Vectors.EncodeDecode | src/components/analog-arrays/analogArrays.cc:18-35 | And whole register payloads survive decoding and encoding |
| Buffers.InitializeRange | src/components/analog-arrays/analogArrays.cc:546-552 | Marks the range, counts the cells that were not covered before, and tells whether the bitmap is full |
| Buffers.DecodeVectorPayload | src/components/analog-arrays/analogArrays.cc:18-26 | Overwrites exactly the addressed elements with the little-endian words of the payload |
| Buffers.EncodeVectorPayload | src/components/analog-arrays/analogArrays.cc:28-35 | Produces the little-endian bytes of exactly the selected elements |
| Buffers.Multiply | src/components/analog-arrays/analogArrays.cc:390-395 | Element r is the dot product of weights r * cols_ to r * cols_ + activeCols - 1 with the first activeCols inputs |
| Buffers.RowAlone | src/components/analog-arrays/analogArrays.cc:390-395 | Element r depends on the active cells of row r of the weights alone |
| AnalogArraysComponent.Array.constructor | src/components/analog-arrays/analogArrays.cc:66-71 | A new array holds the initial state |
| AnalogArraysComponent.Array.CaptureInput | src/components/analog-arrays/analogArrays.cc:454-463 | Updates the array as the capture step prescribes |
| AnalogArraysComponent.Array.ReleaseChunks | src/components/analog-arrays/analogArrays.cc:481-488 | The chunk loop: chunks that completed their transit leave the buffer, input bytes land |
| AnalogArraysComponent.Array.IssueChunks | src/components/analog-arrays/analogArrays.cc:489-498 | The issue loop fills the in-flight window |
| AnalogArraysComponent.Array.ServeChunks | src/components/analog-arrays/analogArrays.cc:562-569 | The chunk loop of the link spends the budget in offset order and returns what is left |
| AnalogArraysComponent.AnalogArrays.constructor | src/components/analog-arrays/analogArrays.cc:37-75 | The component starts in the initial state, which satisfies the invariant |
| AnalogArraysComponent.AnalogArrays.Command | src/components/analog-arrays/analogArrays.cc:208-287 | The command handler computes the arrival function on the old state, returns its status, and keeps the invariant with no check failing |
| AnalogArraysComponent.AnalogArrays.Tick | src/components/analog-arrays/analogArrays.cc:574-612 | The clock handler computes the cycle function on the old state and keeps the invariant with no check failing |
| AnalogArraysComponent.AnalogArrays.Link | src/components/analog-arrays/analogArrays.cc:554-572 | Serves the arrays in rotation from the cursor with the shared or separate budgets, then advances the cursor |
| AnalogArraysComponent.AnalogArrays.ConfigureArray | src/components/analog-arrays/analogArrays.cc:176-206 | Refuses or applies Configure as the arrival function says |
| AnalogArraysComponent.AnalogArrays.Validate | src/components/analog-arrays/analogArrays.cc:227-257 | True exactly when none of the checks that answer Error applies |
| AnalogArraysComponent.AnalogArrays.InitializeProgramProjection | src/components/analog-arrays/analogArrays.cc:113-124 | Allocates the projection once and reserves the active and queued Programs |
| AnalogArraysComponent.AnalogArrays.ProjectedStoreResult | src/components/analog-arrays/analogArrays.cc:126-156 | Returns the result a further Store will read, or none, and whether a reservation changed |
| AnalogArraysComponent.AnalogArrays.ProjectedNonpipelineOutput | src/components/analog-arrays/analogArrays.cc:158-174 | Returns the projected validity of the blocking output |
| AnalogArraysComponent.AnalogArrays.Admit | src/components/analog-arrays/analogArrays.cc:258-287 | Projects, promises and enqueues a validated command, or answers Busy or Error |
| AnalogArraysComponent.AnalogArrays.Start | src/components/analog-arrays/analogArrays.cc:289-301 | Takes the head of the queue and refuses or begins it |
| AnalogArraysComponent.AnalogArrays.BeginTransfer | src/components/analog-arrays/analogArrays.cc:303-332 | Resets the transfer engine for the active command and fetches the bytes of a Store |
| AnalogArraysComponent.AnalogArrays.Complete | src/components/analog-arrays/analogArrays.cc:334-356 | Delivers, replies, forgets the token and frees the transfer engine |
| AnalogArraysComponent.AnalogArrays.RejectQueued | src/components/analog-arrays/analogArrays.cc:358-365 | Replies Error to a queued command and frees its token |
| AnalogArraysComponent.AnalogArrays.StartCompute | src/components/analog-arrays/analogArrays.cc:367-383 | Snapshots the input, reserves a slot and replies Started |
| AnalogArraysComponent.AnalogArrays.ProgressCompute | src/components/analog-arrays/analogArrays.cc:385-403 | Fills the reserved slot when the compute is due and replies Complete |
| AnalogArraysComponent.AnalogArrays.StartPipeline | src/components/analog-arrays/analogArrays.cc:405-452 | The attempt loop computes the recursive start function |
| AnalogArraysComponent.AnalogArrays.Progress | src/components/analog-arrays/analogArrays.cc:465-544 | The transfer engine computes its step function in both modes |
| DeadlockCertificate.BuildWaitEdges | tools/analysis/analyze-deployment-deadlock.py:98-128 | Fails exactly when a waiting tile has no route; otherwise lists exactly one edge for each waiting tile, in tile order, with the iteration and route of its snapshot, the sourceCore of the route loaded for it, and the producer iteration k with k + delta equal to the iteration, if there is one |
| DeadlockCertificate.BuildAdjacency | tools/analysis/analyze-deployment-deadlock.py:131-139 | The graph of the edges and the set of their ends |
| Tarjan.Finder.Visit | tools/analysis/analyze-deployment-deadlock.py:148-170 | The recursive visit keeps the invariant of the search; afterwards the node is on the stack with a smaller low link, or its component has been recorded |
| Tarjan.Finder.Step | tools/analysis/analyze-deployment-deadlock.py:155-160 | Examining one successor accounts for its arc in the low link |
| Tarjan.Finder.PopComponent | tools/analysis/analyze-deployment-deadlock.py:163-170 | Popping down to the node records exactly the popped nodes, in increasing order |
| TarjanState.TopIsComponent | tools/analysis/analyze-deployment-deadlock.py:161-170 | When the low link equals the own number, the stack from the node on is a strongly connected component |
| TarjanState.NothingOutside | tools/analysis/analyze-deployment-deadlock.py:161-170 | No node mutually reachable with it lies elsewhere |
| TarjanState.DiscoverInv | tools/analysis/analyze-deployment-deadlock.py:149-154 | Discovery keeps the invariant of the search |
| TarjanState.LeaveInv | tools/analysis/analyze-deployment-deadlock.py:161-162 | Returning with a smaller low link keeps it |
| TarjanState.PopInv | tools/analysis/analyze-deployment-deadlock.py:163-170 | Recording a component keeps it |
| DeadlockCertificate.SearchAll | tools/analysis/analyze-deployment-deadlock.py:172-174 | The search finds strongly connected components only, pairwise disjoint, that together hold every node |
| DeadlockCertificate.KeptIsCyclic | tools/analysis/analyze-deployment-deadlock.py:176-187 | The selection keeps a component exactly when it has two nodes or a self-edge |
| DeadlockCertificate.StronglyConnectedComponents | tools/analysis/analyze-deployment-deadlock.py:131-188 | The result is exactly the strongly connected components with more than one node or a self-edge, disjoint, each in increasing order, longer ones first and then by their nodes |
| ComponentListing.Place | tools/analysis/analyze-deployment-deadlock.py:181-188 | Inserting a component keeps the listing in order |
| LexicographicOrder.FirstDifferenceDecides | tools/analysis/analyze-deployment-deadlock.py:188 | Lists compare by their first difference, and a list comes before its extensions |
| WaitEdges.OutDegree | tools/analysis/analyze-deployment-deadlock.py:104-128 | The wait graph has at most one arc from each tile |
| WaitEdges.WaitEdgeIs | tools/analysis/analyze-deployment-deadlock.py:98-128 | Snapshot and route determine the edge, field by field |
| CertificateTheorems.CyclesAreSimple | tools/analysis/analyze-deployment-deadlock.py:261-262 | On wait edges each reported component is a simple cycle |
| CertificateTheorems.OneEdgePerCycleNode | tools/analysis/analyze-deployment-deadlock.py:262-268 | cycle_edges has exactly one edge for each cycle node, and it stays within its cycle |
| CertificateTheorems.EveryWaiterEnds | tools/analysis/analyze-deployment-deadlock.py:104-188 | Following wait edges from any waiting tile leads, within as many steps as there are tiles, into a reported cycle or to a tile without wait edge, and never to both |
| DeadlockReport.BuildCertificate | tools/analysis/analyze-deployment-deadlock.py:251-278 | Wait edges, cycles and cycle edges of the certificate; fails exactly when a route is missing. Said of snapshots and loader: a tile is in a reported cycle exactly when following the sourceCore of loaded routes comes back to it, two tiles are in the same cycle exactly when they lead to each other, and following from a waiting tile either runs out or runs into a reported cycle; edges come by tile, longer cycles first and then by their lowest tile |
| DeadlockReport.DeadlockedTiles | tools/analysis/analyze-deployment-deadlock.py:98-188 | A tile is in a reported cycle exactly when following the sourceCore of loaded routes returns to it |
| DeadlockReport.CycleIsLoop | tools/analysis/analyze-deployment-deadlock.py:131-188 | A reported cycle holds exactly the tiles that following from one of them reaches |
| DeadlockReport.WaitersEnd | tools/analysis/analyze-deployment-deadlock.py:98-188 | Following from any tile runs out at a tile that does not wait, or runs into a reported cycle, and never both |
| FunctionalGraphs.CyclicIsSimple | tools/analysis/analyze-deployment-deadlock.py:185-188 | With at most one arc from each node, a cyclic component is one simple cycle |
| FunctionalGraphs.ChainEnds | tools/analysis/analyze-deployment-deadlock.py:104-128 | Such a walk stops or returns to a node already passed within as many steps as there are nodes |
| LptPartition.InitialLptPartition | tools/analysis/generate-sculptor-sst-work-partition.py:146-155 | Places the tiles by falling weight, then falling number, each on the first thread of least load; the loads are those of the assignment |
| LptPartition.SortedTiles | tools/analysis/generate-sculptor-sst-work-partition.py:149-151 | Every tile once, heavier ones first, of equal ones the greater number first |
| LptPartition.LeastLoaded | tools/analysis/generate-sculptor-sst-work-partition.py:152 | The first thread of least load |
| LptPartition.LptMeans | tools/analysis/generate-sculptor-sst-work-partition.py:146-155 | The placement said of the tiles: the order, and for each tile that its thread is the first of those that carry least of the tiles before it |
| LptPartition.LptUnique | tools/analysis/generate-sculptor-sst-work-partition.py:146-155 | The weights determine the initial placement |
| LptPartition.LptBound | tools/analysis/generate-sculptor-sst-work-partition.py:146-155 | No thread carries more than 4/3 - 1/(3m) times the maximum load of any other assignment of the same tiles to m threads |
| GreedyPlacement.GreedyBound | tools/analysis/generate-sculptor-sst-work-partition.py:149-154 | The same bound for any placement of jobs in decreasing order that always picks a least loaded thread |
| LptPartition.LptReachesActive | tools/analysis/generate-sculptor-sst-work-partition.py:146-155 | For any weights: when the heaviest tiles, as many as threads, are active and have weight, every thread starts with an active tile |
| LptPartition.LptReachesAll | tools/analysis/generate-sculptor-sst-work-partition.py:680-700 | When exactly the active tiles have weight and there are at least as many as threads, every thread starts with an active tile |
| LptPartition.OverweightAlone | tools/analysis/generate-sculptor-sst-work-partition.py:146-155 | A tile heavier than the average load of a thread starts alone on its thread |
| LptPartition.ProfileWeightsMayMiss | tools/analysis/generate-sculptor-sst-work-partition.py:702-707 | With profile weights, which inactive tiles may have too, a thread may start without an active tile: a concrete input |
| Mesh.MeshAdjacency | tools/analysis/generate-sculptor-sst-work-partition.py:52-67 | The neighbors of a tile are exactly the tiles one step away in one of the two directions |
| Mesh.RouterTraffic | tools/analysis/generate-sculptor-sst-work-partition.py:112-139 | Fails exactly at a router outside the mesh or a negative count; otherwise the traffic between two tiles is what the records of both directions add up to |
| Mesh.RecordsOfEdge | tools/analysis/generate-sculptor-sst-work-partition.py:96-139 | The records about an edge are those of its two routers, each in the direction of the other |
| Mesh.MeshEdges | tools/analysis/generate-sculptor-sst-work-partition.py:716-734 | Every pair of neighbors gets one plus its traffic, and no other pair an edge |
| Mesh.MeshIsSymmetric | tools/analysis/generate-sculptor-sst-work-partition.py:112-139 | Whatever the records, these edge weights are the same from both ends |
| Trial.MeshRequest | tools/analysis/generate-sculptor-sst-work-partition.py:709-735 | So every request over a mesh meets what the searches assume |
| Cuts.WeightedEdgeCut | tools/analysis/generate-sculptor-sst-work-partition.py:78-86 | The loop over both adjacency directions gives the weight of the undirected edges between threads |
| Cuts.SwapCutDelta | tools/analysis/generate-sculptor-sst-work-partition.py:524-556 | The sums over the affected edges give the true change of the cut when two tiles trade threads |
| Cuts.MoveCutDelta | tools/analysis/generate-sculptor-sst-work-partition.py:486-499 | Weight towards the old thread less weight towards the new one is the true change of the cut |
| Cuts.SumNeighbors | tools/analysis/generate-sculptor-sst-work-partition.py:486-490 | The loop sums the edges towards one thread |
| Balance.LoadReassigned | tools/analysis/generate-sculptor-sst-work-partition.py:512-514 | Reassigning a tile moves exactly its weight |
| Balance.LoadConserved | tools/analysis/generate-sculptor-sst-work-partition.py:512-514 | Loads consistent with an assignment add up to the weight of all tiles |
| Balance.StaysPinned | tools/analysis/generate-sculptor-sst-work-partition.py:500-507 | When threads that receive a tile stay under the load cap, tiles heavier than the cap stay where they are and nothing joins them |
| Balance.CountActive | tools/analysis/generate-sculptor-sst-work-partition.py:475-477 | Counts the active tiles of every thread |
| Moves.ChooseMove | tools/analysis/generate-sculptor-sst-work-partition.py:485-508 | The best admissible destination by cut, load and thread, or none when no thread of a neighbor is admissible |
| Moves.MoveTile | tools/analysis/generate-sculptor-sst-work-partition.py:485-518 | Makes the best admissible move and updates loads and counts to those of the new assignment, or leaves everything when none is admissible; the cut falls strictly, the load cap and the active tiles are kept |
| Moves.MoveRound | tools/analysis/generate-sculptor-sst-work-partition.py:480-520 | Once through all tiles in any order, each making its best move; no change means that no move is admissible |
| Moves.RefinePartition | tools/analysis/generate-sculptor-sst-work-partition.py:463-521 | Exactly what a hundred rounds in the given orders make of the start, found by stopping at the first round that changes nothing: exact totals, each load at most its initial value or under the cap, active threads stay active, and settled unless the cut fell by at least a hundred |
| Moves.RoundsUnique | tools/analysis/generate-sculptor-sst-work-partition.py:477-521 | The start and the orders determine what the rounds make of it |
| Optimum.SettledMeans | tools/analysis/generate-sculptor-sst-work-partition.py:485-508 | A settled partition is a local optimum, recomputed from scratch: no tile can move to the thread of a neighbor so that the cut is lower, the receiving load within the cap and an active tile left behind |
| Optimum.BestMoveMeans | tools/analysis/generate-sculptor-sst-work-partition.py:500-518 | Of all such moves of a tile the one made leaves the lowest cut, then the lowest receiving load, then the lowest thread |
| Swaps.Partners | tools/analysis/generate-sculptor-sst-work-partition.py:596-599 | Exactly the 24 members nearest in weight, ties by number |
| Swaps.EvaluateSwap | tools/analysis/generate-sculptor-sst-work-partition.py:600-624 | Admissible exactly when both loads fit, no thread loses its last active tile and the cut falls; the score |
| Swaps.Exchange | tools/analysis/generate-sculptor-sst-work-partition.py:629-638 | Carries the exchange out on loads, counts and assignment, which stay consistent |
| Swaps.BestSwapUnique | tools/analysis/generate-sculptor-sst-work-partition.py:618-626 | The score names the pair: there is only one best exchange |
| SwapSearch.FindBestSwap | tools/analysis/generate-sculptor-sst-work-partition.py:582-626 | The best of all candidate pairs, whatever the order of the search |
| SwapSearch.RefinePartitionSwaps | tools/analysis/generate-sculptor-sst-work-partition.py:559-639 | At most two hundred best exchanges; exact totals, load cap and active tiles kept, the cut falls strictly with each, ended early only when none is admissible |
| SwapSearch.ExchangesUnique | tools/analysis/generate-sculptor-sst-work-partition.py:574-639 | The outcome is independent of the random order |
| Optimum.NoSwapMeans | tools/analysis/generate-sculptor-sst-work-partition.py:582-616 | When the exchange search finds nothing, no exchange helps, recomputed from scratch: none of a tile with one of the 24 tiles closest in weight on a thread it has an edge of weight above one to lowers the cut with both loads within the cap and both threads still active |
| Optimum.BestSwapMeans | tools/analysis/generate-sculptor-sst-work-partition.py:618-639 | Each step is the exchange that leaves the lowest cut, then the lowest larger load, then the least difference of the two loads, then the lowest tiles |
| Phases.MaxAfterChange | tools/analysis/generate-sculptor-sst-work-partition.py:355-411 | Maximum of the untouched threads and the two new values is the new maximum of the phase |
| PhaseTables.PhaseLoadsForPartition | tools/analysis/generate-sculptor-sst-work-partition.py:309-319 | The table holds in each phase and thread the work of the tiles assigned to it |
| PhaseTables.PhaseCriticalLoad | tools/analysis/generate-sculptor-sst-work-partition.py:322-323 | The sum over the phases of the greatest load |
| PhaseTables.PhaseDelta | tools/analysis/generate-sculptor-sst-work-partition.py:392-412 | The change accumulated over affected phases is the true change of the critical load of the table |
| PhaseTables.ExchangeRows | tools/analysis/generate-sculptor-sst-work-partition.py:439-443 | The updated rows are the table of the exchanged assignment |
| PhaseSearch.ExactDelta | tools/analysis/generate-sculptor-sst-work-partition.py:392-412 | phase_delta equals the critical load recomputed after the exchange less the one recomputed before |
| PhaseSearch.FindBestPair | tools/analysis/generate-sculptor-sst-work-partition.py:372-428 | The best admissible pair of all, by critical load, cut, greater load and tiles |
| PhaseSearch.RefinePartitionPhaseSwaps | tools/analysis/generate-sculptor-sst-work-partition.py:326-460 | Loads, counts, phase table and cut equal recomputation after a number of best exchanges, each of which lowered the critical load by more than the threshold; the cut stays under its cap; fewer than allowed only when no exchange is admissible |
| PhaseSearch.PhaseExchangesUnique | tools/analysis/generate-sculptor-sst-work-partition.py:348-453 | The start and the number of exchanges determine the outcome |
| PhaseOptimum.CriticalIsGreatest | tools/analysis/generate-sculptor-sst-work-partition.py:322-323 | The critical load is the greatest work of any choice of one thread for each phase |
| PhaseOptimum.NoPhaseSwapMeans | tools/analysis/generate-sculptor-sst-work-partition.py:372-430 | When the phase search finds nothing, no exchange of two tiles lowers the critical load, recomputed from scratch, by more than 1e-9 with loads, active tiles and cut within their bounds |
| PhaseOptimum.BestPhaseSwapMeans | tools/analysis/generate-sculptor-sst-work-partition.py:418-453 | Each step is the exchange that leaves the lowest critical load, then the lowest cut, larger load and tiles |
| PhaseTotals.Normalize | tools/analysis/generate-sculptor-sst-work-partition.py:230-242 | Each vector is in proportion to the counts of its tile and adds up to its weight: v[phase] * total = weight * count; all in startup when there are no counts, nothing for a tile without weight |
| PhaseTotals.PhasesAddUp | tools/analysis/generate-sculptor-sst-work-partition.py:234-242 | Over all phases a thread does exactly its scalar load |
| PhaseTotals.IdealIsLowerBound | tools/analysis/generate-sculptor-sst-work-partition.py:896-898 | The reported ideal is a lower bound of the critical load of every assignment |
| PhaseTotals.IdealIsAverage | tools/analysis/generate-sculptor-sst-work-partition.py:896-898 | The reported ideal times the number of threads is the weight of all tiles |
| Trial.Refine | tools/analysis/generate-sculptor-sst-work-partition.py:739-758 | Moves and exchanges together: the middle partition is what a hundred rounds of moves make of the placement, and the result is what up to two hundred best exchanges make of that; each search ends with nothing admissible unless it lowered the cut by as much as it may make steps. Each load at most its initial value or under the cap, active threads kept, the cut never higher than before |
| Trial.RefinePhases | tools/analysis/generate-sculptor-sst-work-partition.py:764-793 | The phase search on top: the given number of best exchanges, with none admissible any more unless that is the maximum; critical load lower by more than the threshold for each, cut at most its value times the growth factor |
| Trial.EveryThreadActive | tools/analysis/generate-sculptor-sst-work-partition.py:842-846 | The final check passes exactly when every thread has an active tile |
| Trial.StuckStaysAlone | tools/analysis/generate-sculptor-sst-work-partition.py:735-793 | An inactive tile heavier than the load cap keeps its thread without an active tile, through placement and all searches |
| Trial.Generate | tools/analysis/generate-sculptor-sst-work-partition.py:735-846 | One trial from placement to final check, with the partitions between the searches: the first search settled, the second and third with no exchange left, or each at its limit of steps; each load at most its initial value or under the cap of average times factor, cut and active threads kept. The check passes with weights derived from the audit, when the heaviest tiles are active, and when the initial placement reaches every thread; it fails whenever an inactive tile is heavier than the cap |
| PhaseOptimum.MovesEnd | tools/analysis/generate-sculptor-sst-work-partition.py:739-748 | In a trial the moves end at a local optimum, or after a hundred rounds that each lowered the cut |
| PhaseOptimum.SwapsEnd | tools/analysis/generate-sculptor-sst-work-partition.py:749-758 | The exchanges end at a local optimum, or after two hundred that each lowered the cut |
| PhaseOptimum.PhasesEnd | tools/analysis/generate-sculptor-sst-work-partition.py:764-793 | The phase exchanges end at a local optimum, or after as many as are allowed, each lowering the critical load by more than a billionth |
| PhaseOptimum.OutcomeUnique | tools/analysis/generate-sculptor-sst-work-partition.py:735-793 | The request and the orders of the moves determine the partition of a trial |
| PhaseOptimum.CapMeans | tools/analysis/generate-sculptor-sst-work-partition.py:736-737 | The cap times the number of threads is the weight of all tiles times the load factor |
| Trial.ProfileWeightsFail | tools/analysis/generate-sculptor-sst-work-partition.py:842-846 | A concrete mesh request with as many active tiles as threads on which every trial ends in the failing check |
| Trial.FinalBound | tools/analysis/generate-sculptor-sst-work-partition.py:735-737 | No final load exceeds the best possible maximum load by more than the greater of 4/3 - 1/(3m) and the load factor |
| Histograms.AddHistogramCount | tools/compiler/validate-sculptor-materialization-audit.py:171-176 | Adds to one size and to no other |
| Histograms.HistogramTotals | tools/compiler/validate-sculptor-materialization-audit.py:1250-1269 | Totals summed over a histogram are those of the requests it counts |
| Histograms.Reconcile | tools/compiler/validate-sculptor-materialization-audit.py:400-416 | The reconciliation loop computes those totals |
| DmaAccounting.OccurrencesAreIterations | tools/compiler/validate-sculptor-materialization-audit.py:179-185 | The occurrence count is the number of iterations of range(begin, end, step) |
| DmaAccounting.SegmentsPartitioned | tools/compiler/validate-sculptor-materialization-audit.py:1070-1097 | In an accepted table every segment lies in the slice of exactly one descriptor, the one it names |
| DmaAccounting.CheckSegments | tools/compiler/validate-sculptor-materialization-audit.py:1083-1138 | Succeeds exactly when all segments of the slice are well formed, with their bytes, transfers and histogram |
| DmaAccounting.CheckFlags | tools/compiler/validate-sculptor-materialization-audit.py:1176-1210 | Succeeds exactly when the compact role of the descriptor is legal |
| DmaAccounting.CheckDescriptor | tools/compiler/validate-sculptor-materialization-audit.py:1045-1210 | Succeeds exactly when every requirement on the descriptor holds; the error that a pair member is not one request cannot occur |
| DmaAccounting.AccountTable | tools/compiler/validate-sculptor-materialization-audit.py:1045-1277 | Succeeds exactly on accepted tables, with exact totals in both directions; neither histogram error can occur |
| TableRequirements.AcceptedMeans | tools/compiler/validate-sculptor-materialization-audit.py:1045-1277 | Which tables are accepted, requirement by requirement on the fields of descriptors and segments |
| TableRequirements.TotalsMean | tools/compiler/validate-sculptor-materialization-audit.py:1139-1243 | The totals of a direction on the fields: bytes and transfers summed over iterations and segments, and requests by size, a leader counting for its pair and a follower for nothing |
| DmaAccounting.CheckHistogram | tools/compiler/validate-sculptor-materialization-audit.py:1250-1277 | On an accepted table the histogram counts and bytes equal the request and byte totals |
| DmaTables.LeaderThenFollower | tools/compiler/validate-sculptor-materialization-audit.py:1185-1206 | In an accepted table leaders and followers come in adjacent input pairs with equally many occurrences |
| DmaTables.BytesReconcile | tools/compiler/validate-sculptor-materialization-audit.py:1151-1243 | The physical requests move exactly the logical bytes, compact pairs included |
| DmaTables.CompactPairJoins | tools/compiler/validate-sculptor-materialization-audit.py:965-1043 | A validated compact pair passes the canonical join test and fits into one frame |
| Joining.GreedyTakesIn | tools/compiler/validate-sculptor-materialization-audit.py:211-296 | The greedy request from descriptor i takes in descriptor j exactly when, on the fields, all from i to j are input descriptors of one transfer each that fit into a frame together, agree on template, relation and flags other than the role bits, have consecutive numbers, ports and segments, and continue each other in both address spaces |
| Joining.RolesPackAlike | tools/compiler/validate-sculptor-materialization-audit.py:348-365 | Tables that differ only in the compact role bits are packed alike |
| RunPacking.GreedyIsLongest | tools/compiler/validate-sculptor-materialization-audit.py:348-365 | No joinable run from a descriptor that fits into a frame is longer than the greedy one |
| RunPacking.GreedyOptimal | tools/compiler/validate-sculptor-materialization-audit.py:316-398 | No split of the descriptors into consecutive joinable runs within the frame needs fewer requests than the greedy one |
| RunAudit.SplitBytes | tools/compiler/validate-sculptor-materialization-audit.py:316-372 | Every split moves the same bytes |
| RunAudit.CurrentRequests | tools/compiler/validate-sculptor-materialization-audit.py:1198-1236 | The requests of the table are those of one of these splits |
| RunAudit.PackingReconciles | tools/compiler/validate-sculptor-materialization-audit.py:417-424 | On an accepted table greedy packing conserves bytes and adds no request |
| RunAudit.MaximalInputDmaRunAudit | tools/compiler/validate-sculptor-materialization-audit.py:299-436 | The audit never raises on an accepted table; its histogram, request count and run counters are those of the greedy split |
| RunCounters.RunsMean | tools/compiler/validate-sculptor-materialization-audit.py:362-388 | The counters of the runs by which descriptors share a request: those that share with the next and not with the one before, those that share at all, and the iterations of the former |
| RunCopies.SameStrides | tools/compiler/validate-sculptor-materialization-audit.py:211-296 | Along a run all descriptors have the same global stride, slot stride and ring slots, so every iteration shifts them alike |
| RunCopies.RunSameCopy | tools/compiler/validate-sculptor-materialization-audit.py:211-296 | One request for a run copies, in every iteration, the same byte pairs in the same order as its descriptors, each placed by its own base, strides and ring, however slots are derived from these |
| RunCopies.RingSameCopy | tools/compiler/validate-sculptor-materialization-audit.py:211-296 | In particular when slots are used round robin |
| Copies.SameCopy | tools/compiler/validate-sculptor-materialization-audit.py:531-591 | Packed requests of an affine segment copy exactly the (global byte, scratchpad byte) pairs of the repeat-major, piece-minor transfers, in order |
| Copies.PackedFits | tools/compiler/validate-sculptor-materialization-audit.py:525-591 | Each packed request fits into a frame |
| Copies.PackCount | tools/compiler/validate-sculptor-materialization-audit.py:447-468 | A linear sequence of n transfers needs ceil(n / floor(frame / size)) requests |
| AffineAudit.PackHistogram | tools/compiler/validate-sculptor-materialization-audit.py:450-466 | The full and tail entries are the histogram of those requests |
| AffineAudit.PackedCount | tools/compiler/validate-sculptor-materialization-audit.py:545-591 | The requests of a segment by strategy, never more than its transfers |
| AffineLines.RequestsByLine | tools/compiler/validate-sculptor-materialization-audit.py:525-591 | The requests of a segment by where its transfers lie: rounded-up per line, by line of pieces or of repetitions, and one for each transfer when they are on no line |
| AffineAudit.PackedTotals | tools/compiler/validate-sculptor-materialization-audit.py:593-605 | Packing a segment conserves bytes and adds no request |
| AffineAudit.AddPackedSequenceHistogram | tools/compiler/validate-sculptor-materialization-audit.py:439-468 | Adds the requests of the packed sequences and returns their number; fails exactly when a transfer exceeds the frame |
| AffineAudit.PackSegment | tools/compiler/validate-sculptor-materialization-audit.py:525-605 | The local histogram is that of the packed requests of the segment wherever it lies; the strategy returned is the one that applies and never repeat; the widest request it returns |
| AffineTable.AffineReconciles | tools/compiler/validate-sculptor-materialization-audit.py:640-668 | For every prefix of an accepted table affine packing conserves bytes and adds no request |
| AffineTallies.TallyExplains | tools/compiler/validate-sculptor-materialization-audit.py:606-640 | In every direction of an accepted table the requests that packing saves are those that the counted packable segments save |
| AffineTallies.TallySplits | tools/compiler/validate-sculptor-materialization-audit.py:606-640 | The packable segments are those of the two linear strategies, the repeat counter is zero, and their packed requests never exceed their logical ones |
| AffineCounters.TallyMeans | tools/compiler/validate-sculptor-materialization-audit.py:575-637 | The counters of a table segment by segment: the packable ones, those whose transfers are all on one line and the others, their transfers and requests over all iterations, and the most transfers that one request holds |
| TableAudit.AffineSegmentRunAudit | tools/compiler/validate-sculptor-materialization-audit.py:483-683 | The audit of a direction never raises on an accepted table; its histogram and requests are those of the packed requests, its counters of packable segments, strategies, logical and packed requests and greatest width are exact, and the reduction is the difference of the logical and packed requests of the packable segments |
| TableAudit.DescriptorAccounting | tools/compiler/validate-sculptor-materialization-audit.py:941-1291 | The whole accounting succeeds exactly on accepted tables; no reconciliation error of the accounting or of either audit can occur |
| ControllerCost.MergeSaves | tools/analysis/compare-sculptor-materialization-audits.py:193-217 | Carrying two requests out as one saves at least setup_cycles |
| ControllerCost.ServiceIs | tools/analysis/compare-sculptor-materialization-audits.py:193-217 | A request that needs b bursts and d data beats takes setup + b * latency + d cycles |
| ControllerCost.MergeMany | tools/analysis/compare-sculptor-materialization-audits.py:193-217 | Merging n equal requests saves at least n - 1 setups |
| ControllerCost.ServiceTotal | tools/analysis/compare-sculptor-materialization-audits.py:246-254 | Service time from a histogram is that of the requests it counts |
| ControllerCost.ParallelLowerBound | tools/analysis/compare-sculptor-materialization-audits.py:274-278 | ceil(total / channels) is at most the load of the busiest channel for every assignment of the requests |
| CostSummaries.SummarizeDirection | tools/analysis/compare-sculptor-materialization-audits.py:220-303 | Succeeds exactly when counters and histogram agree; the totals and the bound of the summary under the given controller |
| CostSummaries.SummaryMeans | tools/analysis/compare-sculptor-materialization-audits.py:220-303 | The service cycles of a summary in terms of the controller, size by size, and its lower bound as the least whole number of cycles not below the share of one channel |
| CostSummaries.CombineHistograms | tools/analysis/compare-sculptor-materialization-audits.py:306-314 | Counts add up size by size |
| CostSummaries.SummarizeAudit | tools/analysis/compare-sculptor-materialization-audits.py:353-409 | Once both directions agree with their histograms, the combined summary cannot fail, and its counters are the sums |
| CostSummaries.CombinedCycles | tools/analysis/compare-sculptor-materialization-audits.py:384-408 | Combined service time is the sum of both; the combined bound is at most the sum of the bounds |
| AffineSavings.AffinePackingSaves | tools/analysis/compare-sculptor-materialization-audits.py:246-254 | On every accepted table affine packing saves at least the setup of every request it does without, so it never raises total service time |
| AttributeSplitting.SplitTopLevel | tools/compiler/validate-sculptor-materialization-audit.py:737-770 | Succeeds exactly on joins of balanced pieces without top-level commas, and returns their stripped pieces |
| AttributeGrammar.BalancedIsWritten | tools/compiler/validate-sculptor-materialization-audit.py:737-764 | A text is read as one entry exactly when a grammar without any scanner writes it: plain characters, quotations in which a backslash protects the next character, and groups between matching (), [], {} or <>, with commas only inside |
| AttributeSplitting.SplitUndoesJoin | tools/compiler/validate-sculptor-materialization-audit.py:737-770 | Nonempty, stripped, balanced entries without top-level comma come back exactly from their comma-join, and the join reads in no other way |
| AttributeSplitting.SplitUndoesPaddedJoin | tools/compiler/validate-sculptor-materialization-audit.py:761-767 | White space around the entries makes no difference |
| AttributeMatching.MatchingEnd | tools/compiler/validate-sculptor-materialization-audit.py:695-719 | Returns the place where the opened body closes, the only one there is; fails exactly when it is not opened or never closes |
| AttributeMatching.OwnCloser | tools/compiler/validate-sculptor-materialization-audit.py:701-718 | Around a self-contained body the closer found is its own, whatever stands before and behind |
| AttributeBodies.CutIsSelfContained | tools/compiler/validate-sculptor-materialization-audit.py:695-770 | A text that can be split is self-contained for every kind of delimiter |
| AttributeBodies.AttributeRoundTrip | tools/compiler/validate-sculptor-materialization-audit.py:722-770 | Entries joined and put between delimiters anywhere in a text: the search finds their own closer and no other place closes it, and the body splits into the entries |
## Left out

- ArrayTheorems.NoCheckFails: does not cover the deadline-overflow checks, because time is unbounded here.
- Acceptance.EveryArrival: while other Stores are on their way, whether a deferred Store is promised is given by the source's projection, which is proved sound (`Promises.ProjectedStore`) and not said in other terms.
- AnalogArraysComponent.AnalogArrays.Command: the cast of the incoming event is not modelled, because events are typed here.
- AnalogArraysComponent.AnalogArrays.constructor: parameter parsing and the checks on parameter names and vector length are outside; the model starts from valid parameters.
- TableAudit.DescriptorAccounting: 64-bit overflow errors are outside, and so are the maximum segment size, the run-length histogram and the longest and largest run, which are reported but never compared.
- Trial.Generate: between its conditions for passing and failing the outcome depends on the searches, which may give an active tile to a thread that started without one.
- Mesh.RouterTraffic: the error for statistics without any traffic, the total number of flits and the parsing of records are outside.
- PhaseSearch.RefinePartitionPhaseSwaps: over reals, so it does not cover accumulated floating-point error; the tables of phase maxima and unaffected maxima are computed where they are used.
- SwapSearch.FindBestSwap: the list of members of each thread is computed where it is used instead of once for each round.
- CostSummaries.SummarizeDirection: averages and shares of four-byte requests are outside.
- Storage of an array: weights, inputs and bitmaps are sequences reassigned as a whole, so their in-place update and aliasing are not captured.
- Statistics counters, traces, cycle profiles and the hash of an initial program: observation only.
- Simulator plumbing (links, clocks, serialization) and the check for live commands at simulation finish.
- Edge fields of the certificate that are only copied (loops, tasks, snapshot counters), network evidence and its classification.
- Selection among the trials of different seeds, edge-cut counts and the report of the partitioner: minima and sums over finished candidates.
- Reading of JSON, CSV and MLIR text, record parsing by regular expression, hashing and command lines.
- Verdict and savings records of the audit comparison: signs of differences of the totals that are modelled.
- Retention accounting and the other validators of the compiler tools: field checks that would add only easy members.
- Router, scratchpad endpoint, processor and queue components.
