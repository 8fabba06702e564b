# Models of the Linux 2.6.23 block and crypto layers

The project models the stateful and algorithmic core of the block layer and of
the structural half of the crypto layer in the tree under `sw/linux-2.6.23`, and
proves what their documentation and their own BUG_ON and WARN_ON lines promise.
`dafny verify dfyconfig.toml` checks all of it.

Block layer:

- `Barrier`, `BarrierProof`: barrier sequencing (drain, pre-flush, barrier,
  post-flush) as a state machine whose runs interleave submission, dispatch,
  hand-out, completion, requeueing and changes of the ordering mode. Safety and
  progress are proved over every disciplined run: a hard barrier that is not a
  file system request is submitted only while the queue holds none, and a
  barrier is refused only with nothing in flight.
- `BarrierDrive`, `BarrierLimits`: that discipline is exact. From every state
  that a disciplined run reaches, any other step leaves a continuation, itself
  disciplined, in which ordering fails.
- `RequestQueueImpl`: the code's own form, an object updated in place. Every
  entry point takes the machine's step and keeps the queue valid and ordered,
  and the checks of the code are asserted where it makes them.
- `AsCache`, `AsLane`, `AsSched`: the anticipatory scheduler. The cached next
  request is the best of all queued ones although only neighbours are looked at,
  and batches do not mix directions.
- `CfqQueue`, `Cfq`: the CFQ scheduler's redundant structures and its draining
  loops. The service tree is given by its nodes in order and a descent meets an
  arbitrary node of the range it is in, so that the results hold for every
  shape a balanced tree may have.
- `Deadline`: the deadline scheduler, its lists and the bound on write
  starvation.
- `Extents`: a request as a stretch of the disk and as a chain of bios, through
  merging and partial completion.
- `TagMap`, `DispatchSort`, `MergeHash`: the tag allocator, the sorted insertion
  into the dispatch list and the elevator's merge hash.

Crypto layer:

- `Poly`, `Gf128`, `Gf128Tables`, `Lrw`, `LrwBytes`, `LrwLoop`: multiplication in
  GF(2^128) by the 4k and 64k tables in both bit conventions, and LRW's incremental
  tweak on top, on numbers, on bytes in memory and in the loop over a chunk.
- `Camellia`, `CamelliaRfc`, `CamelliaSchedule`, `CamelliaSetup`, `CamelliaKeys`:
  the table look-ups and the key schedule that absorbs the whitening keys,
  against the functions and the network of RFC 3713. The code writes
  out three groups of six rounds for 128-bit keys and four for longer ones; the
  model has one text for any number of groups.
- `Modes`, `ModeLoops`, `Scatter`, `Walk`, `BlockWalk`: CBC, PCBC and LRW over
  scatterlists, against the modes on flat byte strings. What
  `blkcipher_walk_next` and `blkcipher_walk_done` do before and after a chunk is
  joined to the chunk, one method for each of the slow, copying and fast ways.
- `Spots`: the layout of the walk's bounce buffer.
- `Digest`, `DigestContexts`: MD5, SHA-1 and SHA-256 over a stream of pieces.
- `CryptoQueue`: the asynchronous request queue, its backlog and the worker.

`Words` has machine words as bit strings, `Octets` byte strings, `Multiples`
arithmetic of multiples, `Lists` lists and buffers.

Conventions. One queue lock: an entry point is one step. No file system request
is inserted at the front, as the code itself relies on when it stacks the barrier
proxies (`block/ll_rw_blk.c:453-456`). Sectors, clocks and
request numbers are unbounded; machine words are bit strings or explicit
remainders where their width matters. Clock comparisons, timers, the decision to
anticipate and similar outcomes are parameters or arbitrary choices. Rbtrees are
sorted sequences. Where CFQ and deadline put a request into a list and a tree
under the lock, the model may do so in the other order.

## Model

| member | source | states |
|---|---|---|
| `BarrierProof.BarrierSafety` | sw/linux-2.6.23/block/ll_rw_blk.c:324-526 | in every disciplined run of submit, dispatch, next, dequeue, complete, requeue and mode steps from the empty queue, an fs request submitted before a barrier completes before the barrier ends, one submitted after it reaches the driver only once the barrier has ended, and barriers end in submission order |
| `BarrierProof.ProxiesAfterDrain` | sw/linux-2.6.23/block/ll_rw_blk.c:428-477 | when the pre-flush, barrier or post-flush proxy is handed to the driver, every fs request submitted before the original barrier is done and the earlier stages are complete |
| `BarrierProof.ChecksNeverFire` | sw/linux-2.6.23/block/ll_rw_blk.c:360-384 | over every disciplined run no enabled step trips the BUG_ON on a repeated or unstarted stage, the WARN_ON on a stale sequence, a negative in-flight count or the missing first entry |
| `BarrierProof.BarrierNeverWedges` | sw/linux-2.6.23/block/ll_rw_blk.c:479-526 | while a barrier sequence runs, the driver holds a request or the next call hands one out |
| `BarrierProof.NextExact` | sw/linux-2.6.23/block/ll_rw_blk.c:479-526 | unless a barrier is refused, a call leaves the proxies of the mode in the place of a barrier at the front of an idle queue, and gives out the first entry exactly if it may run |
| `BarrierProof.IdleGivesOut` | sw/linux-2.6.23/block/ll_rw_blk.c:479-526 | with an idle driver the call gives out the first entry, the first proxy if it starts a sequence |
| `BarrierProof.DriverNeverStarves` | sw/linux-2.6.23/block/elevator.c:693-733 | over every disciplined run, an idle driver that asks gets a request whenever there is one and no barrier has to be refused |
| `BarrierProof.InvStep` | sw/linux-2.6.23/block/elevator.c:545-677 | every step that its callers may take keeps the protocol invariant, a hard barrier that is not an fs request at any time included; an fs submission needs the current colour to fit, and a refusal needs nothing in flight |
| `BarrierProof.SoundStep` | sw/linux-2.6.23/block/elevator.c:643-677 | every disciplined step also keeps the colour of the next request fitting the outstanding ones |
| `BarrierProof.IdleMeansDone` | sw/linux-2.6.23/block/elevator.c:643-677 | the list, the scheduler, the driver count and the sequence show no fs request exactly when every fs request that was submitted has completed |
| `BarrierProof.InvNext` | sw/linux-2.6.23/block/ll_rw_blk.c:479-526 | handing out the next request, starting a sequence or refusing a barrier keeps the invariant |
| `BarrierProof.InvStart` | sw/linux-2.6.23/block/ll_rw_blk.c:428-477 | starting a sequence, with the proxies its mode asks for at the front, keeps the invariant |
| `BarrierProof.InvComplete` | sw/linux-2.6.23/block/elevator.c:855-881 | a completion, with the drain test and the proxies' own end functions, keeps the invariant |
| `BarrierProof.InvRequeue` | sw/linux-2.6.23/block/elevator.c:514-529 | requeueing before, during or after a sequence keeps the invariant |
| `BarrierProof.InvSubmit` | sw/linux-2.6.23/block/elevator.c:643-677 | adding a request with its ordering colour keeps the invariant, for an fs request if the colour is current and for any other request always |
| `BarrierProof.InvDispatch` | sw/linux-2.6.23/block/elevator.c:396-429 | an io scheduler placing a request behind every fence keeps the invariant |
| `BarrierProof.InvDequeue` | sw/linux-2.6.23/block/elevator.c:775-789 | dequeueing a started request keeps the invariant |
| `BarrierProof.InvEnd` | sw/linux-2.6.23/block/ll_rw_blk.c:360-384 | ending the original barrier after the last stage keeps the invariant |
| `BarrierProof.StageEnds` | sw/linux-2.6.23/block/ll_rw_blk.c:360-384 | when the last stage completes, nothing of the barrier's epoch is left in the list or the driver |
| `BarrierProof.InvRefuse` | sw/linux-2.6.23/block/ll_rw_blk.c:488-502 | refusing a barrier on a queue without ordering keeps the invariant when nothing is in flight |
| `BarrierProof.ColorMeaning` | sw/linux-2.6.23/block/ll_rw_blk.c:331-358 | for an outstanding request the colour test finds whether an even number of barriers lies between the running barrier and the request |
| `BarrierProof.LaterEpochsWait` | sw/linux-2.6.23/block/ll_rw_blk.c:331-358 | an entry of the list two or more barriers ahead of the running one, which the colour test mistakes for an earlier request, stands behind an entry that is not to be drained |
| `BarrierProof.FrontBarrier` | sw/linux-2.6.23/block/ll_rw_blk.c:479-526 | a barrier at the front of an idle queue is the oldest one that has not ended |
| `BarrierProof.DrainedMeansEmpty` | sw/linux-2.6.23/block/elevator.c:855-881 | when the drain test succeeds no fs request of the current epoch is with the driver or queued |
| `BarrierProof.DrainClosed` | sw/linux-2.6.23/block/elevator.c:866-881 | once the drain stage is closed, every fs request submitted before the barrier has completed |
| `BarrierProof.InvMeansOrdered` | sw/linux-2.6.23/block/ll_rw_blk.c:324-526 | the protocol invariant implies barrier ordering |
| `BarrierProof.LiveStep` | sw/linux-2.6.23/block/elevator.c:855-881 | every step keeps this: while a sequence drains and the driver is empty, the front entry is one that may be handed out |
| `BarrierLimits.NonFsBarrierBreaksOrder` | sw/linux-2.6.23/drivers/block/pktcdvd.c:774 | with one fs request in the driver, a hard barrier that is not an fs request lets a disciplined continuation lose ordering |
| `BarrierLimits.RefusalInFlightBreaksOrder` | sw/linux-2.6.23/block/ll_rw_blk.c:488-502 | a run after which refusing a barrier while an fs request is in flight loses ordering |
| `BarrierLimits.BarrierOvertakes` | sw/linux-2.6.23/block/elevator.c:855-881 | with a request of the other colour requeued behind the barrier's proxy and the drain stage closed, the barrier runs and ends before that request |
| `BarrierLimits.DisciplineExact` | sw/linux-2.6.23/block/elevator.c:643-677 | the discipline is exact: after every disciplined run, a step leaves all disciplined continuations ordered if and only if it is disciplined itself |
| `BarrierLimits.RefusalExact` | sw/linux-2.6.23/block/ll_rw_blk.c:488-502 | refusing a barrier keeps ordering if and only if no fs request is in flight |
| `BarrierLimits.NonFsBarrierBreaks` | sw/linux-2.6.23/drivers/block/pktcdvd.c:774 | from every state a disciplined run reaches that holds any fs request, a hard barrier that is not an fs request lets some disciplined continuation lose ordering |
| `BarrierLimits.StaleBreaks` | sw/linux-2.6.23/block/elevator.c:597-625 | if a plain fs request is in the driver with the colour of the other parity, the next barrier can end before it |
| `BarrierLimits.LastBreaks` | sw/linux-2.6.23/block/ll_rw_blk.c:331-358 | if the running barrier has the colour that the next request gets, that request is handed out before the barrier has ended |
| `BarrierDrive.Settle` | sw/linux-2.6.23/block/elevator.c:514-529 | from every state that meets the invariant, dispatching and requeueing alone empty the scheduler and the driver, and nothing completes |
| `BarrierDrive.DriveToPlain` | sw/linux-2.6.23/block/ll_rw_blk.c:479-526 | any waiting plain request submitted after the last barrier can be brought into the driver alone, with every barrier ended |
| `BarrierDrive.DriveToLast` | sw/linux-2.6.23/block/ll_rw_blk.c:479-526 | if nothing was submitted after the last barrier, its last stage can be brought into the driver with no fs request left in the list |
| `RequestQueueImpl.RequestQueue.StartOrdered` | sw/linux-2.6.23/block/ll_rw_blk.c:428-477 | the proxies of the mode replace the barrier at the front, draining is over at once exactly if the driver holds no fs request, and the protocol invariant is kept |
| `RequestQueueImpl.RequestQueue.NextRequest` | sw/linux-2.6.23/block/elevator.c:693-733 | keeps the queue valid and ordered; gives out the first entry exactly if it may run, and always if the driver is idle; another turn is asked for exactly when a barrier is refused; a proxy is given out only after every fs request submitted before its barrier has completed |
| `RequestQueueImpl.RequestQueue.NextTurn` | sw/linux-2.6.23/block/ll_rw_blk.c:479-526 | takes the machine's step, and asks for another turn exactly when a barrier is refused; the WARN_ON on a stale stage is asserted |
| `RequestQueueImpl.RequestQueue.CompleteSeq` | sw/linux-2.6.23/block/ll_rw_blk.c:360-384 | closes one open stage, and the barrier ends exactly if every other stage was closed before, with the invariant and ordering kept |
| `RequestQueueImpl.RequestQueue.CheckDrained` | sw/linux-2.6.23/block/elevator.c:866-881 | the drain stage closes only when every fs request submitted before the barrier has completed; while it stays open with an idle driver the front entry may be handed out |
| `RequestQueueImpl.RequestQueue.Complete` | sw/linux-2.6.23/block/elevator.c:855-881 | keeps the queue valid and ordered; the count is positive when it goes down and a stage is not completed twice |
| `RequestQueueImpl.RequestQueue.FindPlace` | sw/linux-2.6.23/block/elevator.c:597-625 | the loop finds the first entry whose stage is not earlier |
| `RequestQueueImpl.RequestQueue.Requeue` | sw/linux-2.6.23/block/elevator.c:514-529 | keeps the queue valid and ordered, with the request at the front or behind the entries of earlier stages |
| `RequestQueueImpl.RequestQueue.AddRequest` | sw/linux-2.6.23/block/elevator.c:643-677 | keeps the queue valid and ordered, with the request coloured and inserted at the front, at the back or with the scheduler |
| `RequestQueueImpl.RequestQueue.Unlink` | sw/linux-2.6.23/block/elevator.c:775-789 | one request leaves the list, and the count is the number of fs requests the driver holds, that one included if it was handed out |
| `RequestQueueImpl.RequestQueue.Dequeue` | sw/linux-2.6.23/block/elevator.c:775-789 | keeps the queue valid and ordered, with the request in the driver |
| `RequestQueueImpl.RequestQueue.Dispatch` | sw/linux-2.6.23/block/elevator.c:396-429 | a request that the scheduler places behind every fence keeps the queue valid and ordered |
| `RequestQueueImpl.RequestQueue.SetOrdered` | sw/linux-2.6.23/block/ll_rw_blk.c:275-300 | changing the ordering mode, also during a sequence, keeps the queue valid |
| `RequestQueueImpl.RequestQueue.EndBarrier` | sw/linux-2.6.23/block/ll_rw_blk.c:360-384 | once nothing of its epoch is left, ending the oldest barrier brings the queue back to the protocol invariant and to ordering; the in-flight count stays |
| `Poly.MulAdd` | sw/linux-2.6.23/crypto/gf128mul.c:391-462 | multiplication modulo x^128+x^7+x^2+x+1 distributes over addition |
| `Poly.MulShift` | sw/linux-2.6.23/crypto/gf128mul.c:125-143 | multiplying by x commutes with the reduction |
| `Poly.MulShiftN` | sw/linux-2.6.23/crypto/gf128mul.c:145-163 | so does multiplying by a power of x |
| `Poly.MulOne` | sw/linux-2.6.23/crypto/gf128mul.c:391-462 | one is neutral |
| `Poly.MulBelow` | sw/linux-2.6.23/crypto/gf128mul.c:391-462 | a product is reduced |
| `Gf128.ValueX` | sw/linux-2.6.23/crypto/gf128mul.c:125-143 | one shift with the conditional constant is multiplication by x, in both bit conventions |
| `Gf128.ValueX8` | sw/linux-2.6.23/crypto/gf128mul.c:145-163 | one byte shift with a table look-up is multiplication by x^8, in both conventions |
| `Gf128.X8IsXEightTimes` | sw/linux-2.6.23/crypto/gf128mul.c:145-163 | the byte step is the bit step applied eight times |
| `Gf128.TableBits` | sw/linux-2.6.23/crypto/gf128mul.c:55-117 | the remainder table holds, for every byte, the reduction of its eight coefficients |
| `Gf128.ConstantLle` | sw/linux-2.6.23/crypto/gf128mul.c:55-117 | the constants of the little-endian-like convention put the modulus' taps where they belong |
| `Gf128.ConstantBbe` | sw/linux-2.6.23/crypto/gf128mul.c:55-117 | so do those of the other convention |
| `Gf128.ValueXor` | sw/linux-2.6.23/crypto/gf128mul.c:435-462 | exclusive or is addition of field elements |
| `Gf128Tables.FillRow` | sw/linux-2.6.23/crypto/gf128mul.c:397-405 | the nested doubling loop fills all 256 entries with the multiples of the key by every byte |
| `Gf128Tables.PowersLle` | sw/linux-2.6.23/crypto/gf128mul.c:397-400 | the halving loop puts the multiples by the eight powers of x at the powers of two |
| `Gf128Tables.PowersBbe` | sw/linux-2.6.23/crypto/gf128mul.c:419-422 | the doubling loop does so for the other convention |
| `Gf128Tables.Init4k` | sw/linux-2.6.23/crypto/gf128mul.c:391-432 | the 4k table is right for every key |
| `Gf128Tables.Init64k` | sw/linux-2.6.23/crypto/gf128mul.c:255-336 | each of the sixteen rows of the 64k table is right for its power of x^8 |
| `Gf128Tables.NextPowers` | sw/linux-2.6.23/crypto/gf128mul.c:271-286 | a row's powers come from the row before by the byte step |
| `Gf128Tables.Mul4kLle` | sw/linux-2.6.23/crypto/gf128mul.c:435-447 | 4k-table multiplication is field multiplication for every pair of elements |
| `Gf128Tables.Mul4kBbe` | sw/linux-2.6.23/crypto/gf128mul.c:450-462 | the same in the other convention |
| `Gf128Tables.Mul64k` | sw/linux-2.6.23/crypto/gf128mul.c:349-372 | 64k-table multiplication is field multiplication, in both conventions |
| `Gf128Tables.HornerStep` | sw/linux-2.6.23/crypto/gf128mul.c:435-447 | one turn of the 4k loop is a step of Horner's scheme over the bytes |
| `Gf128Tables.SumStep` | sw/linux-2.6.23/crypto/gf128mul.c:349-359 | one turn of the 64k loop adds a byte's share of the product |
| `Lrw.IncNumber` | sw/linux-2.6.23/crypto/lrw.c:92-96 | incrementing the two words is adding one to the 128-bit number they stand for |
| `Lrw.IncFlips` | sw/linux-2.6.23/crypto/lrw.c:92-96 | the increment flips exactly the trailing ones and the zero before them |
| `Lrw.GetIndex128` | sw/linux-2.6.23/crypto/lrw.c:107-122 | the word loop returns the number of trailing ones, below 128 unless all bits are set |
| `Lrw.SetKey` | sw/linux-2.6.23/crypto/lrw.c:51-84 | entry i of the increment table is the key times the i+1 lowest powers |
| `Lrw.TweakStep` | sw/linux-2.6.23/crypto/lrw.c:135-160 | adding the table entry of the counter's trailing ones turns the tweak of a counter into that of the next |
| `Lrw.CounterNumber` | sw/linux-2.6.23/crypto/lrw.c:92-96 | after j increments the counter is iv + j while that does not wrap |
| `Lrw.IndexInRange` | sw/linux-2.6.23/crypto/lrw.c:107-122 | the index into the increment table stays in range over n blocks exactly when the counter does not pass 2^128 - 1 |
| `Lrw.TweakValue` | sw/linux-2.6.23/crypto/lrw.c:124-178 | the tweak of a block is the field product of its counter and the key |
| `LrwLoop.Advance` | sw/linux-2.6.23/crypto/lrw.c:157-160 | from one block to the next the counter in memory and the tweak move on together, and the table index is in range while the counter has room |
| `LrwLoop.Round` | sw/linux-2.6.23/crypto/lrw.c:98-103 | the three writes of a round leave the block of the flat mode |
| `LrwLoop.LrwChunk` | sw/linux-2.6.23/crypto/lrw.c:156-167 | over a chunk, in place or not, the loop writes the blocks of the flat mode and leaves the counter and tweak of the last one |
| `Modes.LrwIsSpec` | sw/linux-2.6.23/crypto/lrw.c:124-178 | block j of a message is the cipher between two additions of (iv + j) times the second key |
| `Modes.CounterIs` | sw/linux-2.6.23/crypto/lrw.c:92-96 | the bytes of the counter and the tweak of block j are those of iv + j |
| `LrwBytes.XorIs` | sw/linux-2.6.23/crypto/lrw.c:98-103 | be128_xor works byte by byte in memory |
| `Lrw.DecryptUndoes` | sw/linux-2.6.23/crypto/lrw.c:180-200 | decryption undoes encryption for every invertible block cipher |
| `Camellia.RoundIsF` | sw/linux-2.6.23/crypto/camellia.c:186-200 | a round with its key carried back through the P-function is F without a key plus that key |
| `Camellia.FKey` | sw/linux-2.6.23/crypto/camellia.c:146-164 | a key added to the input is the key of F |
| `Camellia.CarryThroughFlInv` | sw/linux-2.6.23/crypto/camellia.c:171-185 | adding a key before FLinv is adding its carried form after it |
| `Camellia.CarryThroughFl` | sw/linux-2.6.23/crypto/camellia.c:171-185 | adding a carried key before FL is adding the key after it |
| `Camellia.FlInverse` | sw/linux-2.6.23/crypto/camellia.c:171-185 | FL and FLinv undo each other |
| `Camellia.CarryIsLinear` | sw/linux-2.6.23/crypto/camellia.c:584-641 | carrying a key through a layer is linear |
| `CamelliaRfc.FIs` | sw/linux-2.6.23/crypto/camellia.c:146-164 | for tables that combine the four S-boxes, CAMELLIA_F is the F-function of section 2.4.1 of RFC 3713: each byte is the sum of S-box outputs that the RFC lists |
| `CamelliaRfc.LookupsAre` | sw/linux-2.6.23/crypto/camellia.c:146-154 | the eight table entries of a round give, byte by byte, sums of three S-box outputs |
| `CamelliaRfc.MixIs` | sw/linux-2.6.23/crypto/camellia.c:155-160 | the additions and the rotation after the look-ups make the P-function of section 2.4.1 of RFC 3713 out of them |
| `CamelliaRfc.FlIs` | sw/linux-2.6.23/crypto/camellia.c:171-185 | CAMELLIA_FLS is FL and FLINV of sections 2.4.2 and 2.4.3 of RFC 3713 |
| `CamelliaRfc.RotationsAre` | sw/linux-2.6.23/crypto/camellia.c:114-120 | the shifts and additions of the word rotations rotate |
| `CamelliaSchedule.RoundStep` | sw/linux-2.6.23/crypto/camellia.c:186-200 | a round takes one carried key off its register and leaves the next one on it |
| `CamelliaSchedule.GroupStep` | sw/linux-2.6.23/crypto/camellia.c:1228-1245 | six rounds of the fast cipher are six rounds of the plain one plus known keys |
| `CamelliaSchedule.Masked` | sw/linux-2.6.23/crypto/camellia.c:1214-1314 | before every group the fast registers are the plain ones plus known keys |
| `CamelliaSchedule.FastIsPlain` | sw/linux-2.6.23/crypto/camellia.c:1214-1314 | for every scheduled table and block the fast cipher is the network of sections 2.3 and 2.4 of RFC 3713, with its F, FL and FLINV and all four whitening keys |
| `CamelliaSchedule.DecryptUndoes` | sw/linux-2.6.23/crypto/camellia.c:1316-1416 | decryption undoes encryption for every subkey table, for 18 and 24 rounds |
| `CamelliaSchedule.EncryptUndoes` | sw/linux-2.6.23/crypto/camellia.c:1214-1314 | encryption undoes decryption for every subkey table |
| `CamelliaSetup.AbsorbKw2` | sw/linux-2.6.23/crypto/camellia.c:584-611 | every even round of a group, and kw3, takes on kw2 as carried through the FLinv layers before it |
| `CamelliaSetup.AbsorbKw4` | sw/linux-2.6.23/crypto/camellia.c:613-641 | every odd round, and kw1, takes on kw4 as carried back through the FL layers after it |
| `CamelliaSetup.Fold` | sw/linux-2.6.23/crypto/camellia.c:643-702 | neighbouring subkeys are combined across rounds and layers |
| `CamelliaSetup.UnfoldRounds` | sw/linux-2.6.23/crypto/camellia.c:705-777 | every round subkey, and no layer key, is carried back through the last half of P |
| `CamelliaSetup.Cancels` | sw/linux-2.6.23/crypto/camellia.c:643-702 | the absorbed whitening keys cancel: a round subkey takes one carried key to the next |
| `CamelliaSetup.Setup` | sw/linux-2.6.23/crypto/camellia.c:584-777 | the passes in turn leave a schedule for the table they started from, for 3 and 4 groups |
| `CamelliaSetup.EncryptBlock` | sw/linux-2.6.23/crypto/camellia.c:1214-1314 | the in-place rounds compute the fast cipher |
| `CamelliaSetup.DecryptBlock` | sw/linux-2.6.23/crypto/camellia.c:1316-1416 | the same for decryption |
| `CamelliaKeys.RolDqIsRotl` | sw/linux-2.6.23/crypto/camellia.c:122-139 | both word-wise rotations rotate the 128-bit key, for every amount they are defined for |
| `CamelliaKeys.MixKa128` | sw/linux-2.6.23/crypto/camellia.c:536-556 | the shortened derivation yields KA of section 2.2 of RFC 3713 |
| `CamelliaKeys.MixKa` | sw/linux-2.6.23/crypto/camellia.c:853-872 | so does that for longer keys |
| `CamelliaKeys.MixKb` | sw/linux-2.6.23/crypto/camellia.c:874-885 | the derivation yields KB |
| `CamelliaKeys.SetupRight` | sw/linux-2.6.23/crypto/camellia.c:1193-1207 | the right half of a 192- or 256-bit key is that of section 2.2 of RFC 3713 |
| `CamelliaKeys.Setup128` | sw/linux-2.6.23/crypto/camellia.c:479-780 | for every key the subkeys schedule the table of section 2.2 of RFC 3713 |
| `CamelliaKeys.Setup256` | sw/linux-2.6.23/crypto/camellia.c:783-1192 | the same for 192- and 256-bit keys |
| `CamelliaKeys.Context.SetKey` | sw/linux-2.6.23/crypto/camellia.c:1676-1706 | keys of 16, 24 or 32 bytes are scheduled, any other is refused and changes nothing |
| `CamelliaKeys.Context.Encrypt` | sw/linux-2.6.23/crypto/camellia.c:1709-1733 | a keyed context encrypts as RFC 3713 defines, from the S-boxes and the constants up |
| `CamelliaKeys.Context.Decrypt` | sw/linux-2.6.23/crypto/camellia.c:1736-1760 | decryption returns the one block that encrypts to its argument |
| `Modes.RunConcat` | sw/linux-2.6.23/crypto/cbc.c:94-119 | a message may be cut between any two blocks and the parts run in turn, for CBC, PCBC and LRW in both directions |
| `Modes.RunUndone` | sw/linux-2.6.23/crypto/cbc.c:183-208 | decryption undoes encryption and leaves the same chaining value, for CBC, PCBC and LRW |
| `Modes.StepUndone` | sw/linux-2.6.23/crypto/pcbc.c:129-156 | the same for one block |
| `ModeLoops.CbcEncryptSegment` | sw/linux-2.6.23/crypto/cbc.c:42-66 | the loop from one buffer to another writes the flat mode's bytes, leaves its chaining value and returns the bytes left over |
| `ModeLoops.CbcEncryptInPlace` | sw/linux-2.6.23/crypto/cbc.c:68-92 | so does the loop in place |
| `ModeLoops.CbcDecryptSegment` | sw/linux-2.6.23/crypto/cbc.c:121-147 | so does the decrypting loop |
| `ModeLoops.CbcDecryptInPlace` | sw/linux-2.6.23/crypto/cbc.c:149-181 | so does the loop in place, which runs from the last block to the first |
| `ModeLoops.PcbcEncryptSegment` | sw/linux-2.6.23/crypto/pcbc.c:46-71 | the PCBC loop between buffers equals the flat mode |
| `ModeLoops.PcbcEncryptInPlace` | sw/linux-2.6.23/crypto/pcbc.c:73-100 | the PCBC loop in place |
| `ModeLoops.PcbcDecryptSegment` | sw/linux-2.6.23/crypto/pcbc.c:129-156 | the decrypting PCBC loop between buffers |
| `ModeLoops.PcbcDecryptInPlace` | sw/linux-2.6.23/crypto/pcbc.c:158-185 | the decrypting PCBC loop in place |
| `ModeLoops.CbcUndoBlock` | sw/linux-2.6.23/crypto/cbc.c:168-178 | a block is turned back while its predecessor is still ciphertext |
| `ModeLoops.CbcDecryptLast` | sw/linux-2.6.23/crypto/cbc.c:149-181 | a block's plaintext depends on it and the ciphertext block before it |
| `Scatter.AddrInEntry` | sw/linux-2.6.23/crypto/scatterwalk.h:61-64 | a list's byte is at the address its entry, page and offset say |
| `Scatter.WrittenTwice` | sw/linux-2.6.23/crypto/scatterwalk.c:84-108 | writing two stretches one after the other is writing their concatenation |
| `Scatter.ScatterWalk.constructor` | sw/linux-2.6.23/crypto/scatterwalk.c:42-49 | a walk starts at byte 0 |
| `Scatter.ScatterWalk.Here` | sw/linux-2.6.23/crypto/scatterwalk.h:35-64 | the bytes from the walk's position to the end of the entry are contiguous |
| `Scatter.ScatterWalk.PageLen` | sw/linux-2.6.23/crypto/scatterwalk.h:35-40 | what is left of the entry in this page: it ends at an entry's or a page's end and is empty only at the former |
| `Scatter.ScatterWalk.Advance` | sw/linux-2.6.23/crypto/scatterwalk.h:49-53 | moves the position |
| `Scatter.ScatterWalk.PageDone` | sw/linux-2.6.23/crypto/scatterwalk.c:59-75 | which byte comes next does not change; the walk is at the next entry exactly if more is to come and the entry was at its end |
| `Scatter.ScatterWalk.Done` | sw/linux-2.6.23/crypto/scatterwalk.c:77-81 | the same after a chunk, where the code goes on to the next entry only from the end of a page |
| `Walk.CopyIn` | sw/linux-2.6.23/crypto/scatterwalk.c:84-108 | the copy loop gathers exactly the next bytes of the list, across pages and entries |
| `Walk.CopyOut` | sw/linux-2.6.23/crypto/scatterwalk.c:84-108 | the copy loop writes exactly the next bytes of the list and nothing else |
| `BlockWalk.Chunk` | sw/linux-2.6.23/crypto/cbc.c:102-113 | a chunk is run by the loop of its mode that fits its two addresses, with the flat mode's result; the tweak of LRW goes along |
| `BlockWalk.BlockCipherWalk.constructor` | sw/linux-2.6.23/crypto/blkcipher.c:314-340 | a walk starts with nothing run and the caller's chaining value |
| `BlockWalk.BlockCipherWalk.SlowBlock` | sw/linux-2.6.23/crypto/blkcipher.c:146-179 | a block that is not contiguous goes through a bounce buffer with the same result |
| `Spots.SpotFirst` | sw/linux-2.6.23/crypto/blkcipher.c:62-69 | a spot is the first place from the start on at which the bytes do not straddle a page |
| `Spots.SlowSpotsFit` | sw/linux-2.6.23/crypto/blkcipher.c:146-180 | wherever the buffer lies, the two areas of a slow block are aligned, do not meet, do not straddle a page and fit into the size allocated |
| `Spots.PageSpotsFit` | sw/linux-2.6.23/crypto/blkcipher.c:154-156 | a whole page used as the buffer has room for both areas |
| `Spots.IvFitsExact` | sw/linux-2.6.23/crypto/blkcipher.c:275-297 | the chaining value, behind both areas, fits wherever the buffer lies, if and only if no move to the next page is longer than the size allows for |
| `Spots.NeverTooFar` | sw/linux-2.6.23/crypto/blkcipher.c:275-297 | that is so whenever the chaining value is at most a block or a multiple of the alignment |
| `Spots.TooFarExample` | sw/linux-2.6.23/crypto/blkcipher.c:275-297 | and is not so for 6 bytes beside blocks of 4 aligned to 4 |
| `BlockWalk.BlockCipherWalk.RunCopied` | sw/linux-2.6.23/crypto/blkcipher.c:181-193 | so does a misaligned chunk through a page |
| `BlockWalk.BlockCipherWalk.RunThere` | sw/linux-2.6.23/crypto/blkcipher.c:195-220 | so does a chunk where it lies, in place or not |
| `BlockWalk.BlockCipherWalk.FastChunk` | sw/linux-2.6.23/crypto/blkcipher.c:84-103 | both positions move by the whole blocks that were run |
| `BlockWalk.BlockCipherWalk.Turn` | sw/linux-2.6.23/crypto/blkcipher.c:222-273 | every turn runs at least a block and keeps source, destination and chaining value in step; a block goes through the bounce buffer exactly if one of the pages has less than a block left, and a chunk is copied exactly if one side is misaligned |
| `BlockWalk.BlockCipherWalk.All` | sw/linux-2.6.23/crypto/blkcipher.c:105-143 | the loop runs exactly the whole blocks |
| `BlockWalk.Crypt` | sw/linux-2.6.23/crypto/cbc.c:94-208 | for CBC, PCBC and LRW, every fragmentation, page size and alignment, and in-place and disjoint lists, the destination gets the flat mode's bytes, nothing else changes, info holds the flat chaining value (for LRW the counter of the last block), and a length that is not whole blocks is reported |
| `BlockWalk.FirstTweak` | sw/linux-2.6.23/crypto/lrw.c:146-151 | the first tweak is the product of the counter and the second key, by the 64k table |
| `BlockWalk.CryptUndone` | sw/linux-2.6.23/crypto/pcbc.c:102-212 | decrypting what an encryption left in its destination, over any fragmentation, writes the plaintext |
| `BlockWalk.Commit` | sw/linux-2.6.23/crypto/blkcipher.c:105-143 | running the next bytes from their own chaining value extends what has been run |
| `BlockWalk.NoOverlap` | sw/linux-2.6.23/crypto/blkcipher.c:195-220 | a chunk's two stretches are the same or disjoint |
| `AsCache.ChooseExact` | sw/linux-2.6.23/block/as-iosched.c:280-348 | the choice is the better one: not too far back first, then the nearer with backward distance doubled, and behind the head the lower |
| `AsCache.ChooseBest` | sw/linux-2.6.23/block/as-iosched.c:280-348 | the choice between two requests is at least as good as either |
| `AsCache.PrefersTrans` | sw/linux-2.6.23/block/as-iosched.c:280-348 | the preference is transitive, so there is a best request |
| `AsCache.AddKeepsBest` | sw/linux-2.6.23/block/as-iosched.c:748-753 | weighing a new request against the cached one finds the best of all |
| `AsCache.CutBest` | sw/linux-2.6.23/block/as-iosched.c:355-378 | the neighbours and the first entry are enough when the head is where the removed entry was |
| `AsCache.DispatchKeepsBest` | sw/linux-2.6.23/block/as-iosched.c:931-975 | after dispatching any queued request the cached one is the best of all that are left |
| `AsCache.DispatchExact` | sw/linux-2.6.23/block/as-iosched.c:931-975 | whether or not requests overlap, the request found after a dispatch is the best of all the others if and only if the entry behind the dispatched one starts past its end or nothing nearer follows that entry |
| `AsCache.OverlapMisses` | sw/linux-2.6.23/block/as-iosched.c:931-975 | after 100 sectors at 0 the scheduler goes back to a request at 10 although one at 150 is nearer |
| `AsCache.RemoveKeepsBest` | sw/linux-2.6.23/block/as-iosched.c:871-879 | removing the cached request while the head stays leaves the best of the rest |
| `AsLane.AddInv` | sw/linux-2.6.23/block/as-iosched.c:1143-1169 | adding a request keeps the cache optimal and both lists equal |
| `AsLane.DispatchInv` | sw/linux-2.6.23/block/as-iosched.c:931-975 | dispatching any request does |
| `AsLane.RemoveInv` | sw/linux-2.6.23/block/as-iosched.c:856-880 | removing any request does |
| `AsLane.GrowInv` | sw/linux-2.6.23/block/ll_rw_blk.c:2954-2970 | a back merge up to the next request does |
| `AsLane.MergeInv` | sw/linux-2.6.23/block/as-iosched.c:1239-1268 | merging a request with its successor does, with the fifo place of the sooner one |
| `AsLane.LaneFacts` | sw/linux-2.6.23/block/as-iosched.c:982-1138 | the cache is set iff a request is queued, and the fifo's head is in the sort list |
| `AsSched.AsData.MoveToDispatch` | sw/linux-2.6.23/block/as-iosched.c:931-975 | a request leaves its lane and joins those outstanding; the cache stays optimal |
| `AsSched.AsData.constructor` | sw/linux-2.6.23/block/as-iosched.c:1324-1355 | nothing is queued or out, and a batch of writes has two requests at least |
| `AsSched.AsData.Dispatch` | sw/linux-2.6.23/block/as-iosched.c:982-1138 | for every outcome of the clocks: exactly when nothing goes out, when the direction changes, which request goes out, the cached next or the oldest of the direction, and what becomes of the batch flags and the write count; directions never mix and the WARN_ONs on new_batch never fire |
| `AsSched.AsData.SwitchBatch` | sw/linux-2.6.23/block/as-iosched.c:1055-1100 | the direction chosen and which flags a change sets; the WARN_ON at the switch to reads is asserted |
| `AsSched.AsData.DispatchAll` | sw/linux-2.6.23/block/as-iosched.c:990-1016 | a forced dispatch empties both lanes and sends every queued request exactly once; directions are unmixed afterwards exactly if no async request was queued or outstanding |
| `AsSched.AsData.AddRequest` | sw/linux-2.6.23/block/as-iosched.c:250-258 | a request at the same sector is dispatched first; directions stay unmixed exactly when there is none or it has the direction of those outstanding |
| `AsSched.AsData.MergedRequests` | sw/linux-2.6.23/block/as-iosched.c:1239-1268 | merging keeps the cache optimal and the directions; the survivor takes the place in the fifo of the one it swallowed exactly if that is due earlier |
| `AsSched.AsData.BackMerged` | sw/linux-2.6.23/block/ll_rw_blk.c:2954-2970 | so does growing a request |
| `AsSched.AsData.Activate` | sw/linux-2.6.23/block/as-iosched.c:1171-1177 | keeps the directions |
| `AsSched.AsData.Deactivate` | sw/linux-2.6.23/block/as-iosched.c:1179-1185 | keeps the directions |
| `AsSched.AsData.Completed` | sw/linux-2.6.23/block/as-iosched.c:799-848 | only a request the driver took completes; the last one outstanding releases a change of batch, and a new batch of reads begins with its first completion |
| `CfqQueue.ChooseExact` | sw/linux-2.6.23/block/cfq-iosched.c:294-382 | the choice is the one that is better: sync before async, then metadata, then the one that does not wrap, then the nearer with backward distance doubled, then the higher sector |
| `CfqQueue.FindNextExact` | sw/linux-2.6.23/block/cfq-iosched.c:407-429 | the neighbour search yields the better of the request before and the one after, the first coming after the last |
| `CfqQueue.FoundOther` | sw/linux-2.6.23/block/cfq-iosched.c:407-429 | the neighbour search yields another request of the queue, and none only when there is no other |
| `CfqQueue.TakePart` | sw/linux-2.6.23/block/cfq-iosched.c:652-666 | removing a request keeps lists, cache and counts in agreement |
| `CfqQueue.AttachPart` | sw/linux-2.6.23/block/cfq-iosched.c:572-595 | so does inserting one |
| `CfqQueue.DetachPart` | sw/linux-2.6.23/block/cfq-iosched.c:597-603 | and taking one off the sort list to put it back elsewhere |
| `CfqQueue.MovedPart` | sw/linux-2.6.23/block/cfq-iosched.c:683-691 | and moving its start meanwhile |
| `CfqQueue.AnnouncedPart` | sw/linux-2.6.23/block/cfq-iosched.c:1779-1791 | and adding a new one to the fifo |
| `CfqQueue.CountsPositive` | sw/linux-2.6.23/block/cfq-iosched.c:557-570 | the counts the code insists on are positive whenever a request is removed |
| `CfqQueue.InvFacts` | sw/linux-2.6.23/block/cfq-iosched.c:1014-1073 | next_rq is set iff the queue has requests, and then names one of them; the fifo is empty iff the sort list is |
| `Cfq.CfqData.RbFirst` | sw/linux-2.6.23/block/cfq-iosched.c:387-393 | returns the leftmost node whether or not it was cached |
| `Cfq.CfqData.GetQueue` | sw/linux-2.6.23/block/cfq-iosched.c:1355-1459 | a task's queue is there afterwards, allocated empty if it was not, and no other queue changes |
| `Cfq.CfqData.Activate` | sw/linux-2.6.23/block/cfq-iosched.c:626-642 | of two requests of one kind from the end of the served one on, the nearer is chosen next, in every queue |
| `Cfq.CfqData.Completed` | sw/linux-2.6.23/block/cfq-iosched.c:1793-1808 | the counts of requests in flight go down and the structures stay valid |
| `Cfq.CfqData.RbErase` | sw/linux-2.6.23/block/cfq-iosched.c:395-402 | the cached node stays unset or right |
| `Cfq.CfqData.Descend` | sw/linux-2.6.23/block/cfq-iosched.c:470-499 | for every tree shape, the descent ends behind all queues that are not to be served later and before the rest, and goes left all the way iff that place is the first |
| `Cfq.CfqData.Link` | sw/linux-2.6.23/block/cfq-iosched.c:470-508 | a queue is put at the place found, the order of service and the cached node are kept, and the queue is first iff it is to be served before every other |
| `Cfq.CfqData.ServiceTreeAdd` | sw/linux-2.6.23/block/cfq-iosched.c:446-509 | the queue is in the tree once, the tree stays sorted by class and key, the cached leftmost node is unset or right, and a queue sorted in is first iff it is to be served before every other |
| `Cfq.OrderInsert` | sw/linux-2.6.23/block/cfq-iosched.c:470-508 | inserting at the place of a descent keeps the tree in the order of service |
| `Cfq.CfqData.AddCfqqRr` | sw/linux-2.6.23/block/cfq-iosched.c:527-535 | flag, tree and count change together |
| `Cfq.CfqData.DelCfqqRr` | sw/linux-2.6.23/block/cfq-iosched.c:541-552 | and back; the count is positive before |
| `Cfq.CfqData.RemoveRequest` | sw/linux-2.6.23/block/cfq-iosched.c:652-666 | the request leaves every list and count, the next one is looked for if it was the next, and the queue leaves the tree with its last request |
| `Cfq.CfqData.DispatchInsert` | sw/linux-2.6.23/block/cfq-iosched.c:917-928 | the request goes to the dispatch list once and the counts in flight go up |
| `Cfq.CfqData.DispatchAliases` | sw/linux-2.6.23/block/cfq-iosched.c:584-585 | the one request at the sector of the new one is sent, if there is one, and no other |
| `Cfq.CfqData.AddRqRb` | sw/linux-2.6.23/block/cfq-iosched.c:572-595 | insertion restores the whole invariant, also when an alias emptied the queue meanwhile; nothing is lost |
| `Cfq.CfqData.InsertRequest` | sw/linux-2.6.23/block/cfq-iosched.c:1779-1791 | keeps the structural invariant; the queue holds or has sent what it did and the new request |
| `Cfq.CfqData.FrontMerged` | sw/linux-2.6.23/block/cfq-iosched.c:597-603 | keeps it when a request moves to its new sector, and no request is lost or sent twice |
| `Cfq.CfqData.MergedRequests` | sw/linux-2.6.23/block/cfq-iosched.c:693-705 | the request swallowed leaves the queue, and the other one takes its place in the fifo exactly if that is older |
| `Cfq.CfqData.ForcedQueue` | sw/linux-2.6.23/block/cfq-iosched.c:1062-1073 | drains a queue, each request once and each as next_rq at its turn, and the fifo is empty at the end |
| `Cfq.CfqData.ForcedDispatch` | sw/linux-2.6.23/block/cfq-iosched.c:1079-1095 | terminates with every request of every queue dispatched once, the tree empty and no queue counted |
| `Cfq.CfqData.SliceExpired` | sw/linux-2.6.23/block/cfq-iosched.c:757-790 | the active queue is sorted in again with its new key, nothing else changes and the tree stays in order |
| `Cfq.CfqData.Preempt` | sw/linux-2.6.23/block/cfq-iosched.c:1721-1735 | the queue is on the round robin with key 0 and only the active queue's key changes beside; it is selected next if and only if no other queue is of a better class or of its class with such a key |
| `Cfq.CfqData.SelectQueue` | sw/linux-2.6.23/block/cfq-iosched.c:970-1008 | the active queue goes on exactly while it has requests and time; otherwise a queue before which no other is to be served is selected, unless there is none or it is of the idle class and has to wait; a selected queue has requests, and a new slice begins with a look at the fifo |
| `Cfq.CfqData.SetActive` | sw/linux-2.6.23/block/cfq-iosched.c:735-752 | the queue is active and its fifo is to be looked at again |
| `Cfq.CfqData.PickRequest` | sw/linux-2.6.23/block/cfq-iosched.c:933-955 | the oldest request if it is late and was not looked at in this slice, else next_rq |
| `Cfq.CfqData.DispatchRound` | sw/linux-2.6.23/block/cfq-iosched.c:1014-1041 | sends exactly the requests of a round in order, as many as the queue has but at most the quantum and one at least |
| `Cfq.RoundOrder` | sw/linux-2.6.23/block/cfq-iosched.c:1021-1041 | in a round only the first request can be the oldest one for being late; every other one is next_rq at its turn |
| `Cfq.CfqData.ServeQueue` | sw/linux-2.6.23/block/cfq-iosched.c:1014-1060 | a round is sent, and the active queue expires exactly if others wait and the queue is of the idle class or async with its share used |
| `Cfq.CfqData.ServeSelected` | sw/linux-2.6.23/block/cfq-iosched.c:1108-1131 | the queue is served exactly if it is not throttled, with one request for the idle class and the quantum for others |
| `Cfq.CfqData.DispatchRequests` | sw/linux-2.6.23/block/cfq-iosched.c:1097-1135 | terminates; the count returned is what was sent, what left the queues is on the dispatch list once, the first request sent is of the queue that is to be selected, and it stops only with no queue to select or with one that has requests and is throttled |
| `Cfq.CfqData.Turn` | sw/linux-2.6.23/block/cfq-iosched.c:1107-1132 | one turn of the loop selects a queue as SelectQueue says and serves it, which leaves fewer requests, or serves none and changes nothing but keys and marks |
| `Deadline.HeadExpiresFirst` | sw/linux-2.6.23/block/deadline-iosched.c:222-233 | nothing in a fifo expires before its head |
| `Deadline.TimedAdd` | sw/linux-2.6.23/block/deadline-iosched.c:91-104 | with a fixed expiry and a clock that does not go back, adding keeps a fifo in order of expiry |
| `Deadline.TimedTakePlace` | sw/linux-2.6.23/block/deadline-iosched.c:161-180 | so does a merge that passes on place and expiry |
| `Deadline.RemovedPart` | sw/linux-2.6.23/block/deadline-iosched.c:72-86 | removing a request keeps both lists equal and next_rq in its tree |
| `Deadline.SuccessorIs` | sw/linux-2.6.23/block/deadline-iosched.c:197-204 | the next request after one is the nearest that starts further up, and there is none only when no request does |
| `Deadline.PatienceStep` | sw/linux-2.6.23/block/deadline-iosched.c:265-290 | choosing reads while writes wait uses up a batch of patience |
| `Deadline.PatienceBound` | sw/linux-2.6.23/block/deadline-iosched.c:239-336 | patience never exceeds (writes_starved + 1) batches |
| `Deadline.DeadlineData.RemoveRequest` | sw/linux-2.6.23/block/deadline-iosched.c:109-115 | keeps the lists of both directions |
| `Deadline.DeadlineData.MoveRequest` | sw/linux-2.6.23/block/deadline-iosched.c:197-216 | the request goes to the dispatch list, its successor becomes the only next_rq, and no request is lost |
| `Deadline.DeadlineData.MoveAliases` | sw/linux-2.6.23/block/deadline-iosched.c:58-70 | the one request at the sector is dispatched, if there is one, and no other |
| `Deadline.DeadlineData.AddRequest` | sw/linux-2.6.23/block/deadline-iosched.c:91-104 | a request at the same sector is dispatched first, the new one is put at its place in both lists with its deadline; nothing is lost |
| `Deadline.DeadlineData.FrontMerged` | sw/linux-2.6.23/block/deadline-iosched.c:147-159 | the request changes its place in the sort list only, after one at its new sector was dispatched; nothing is lost |
| `Deadline.DeadlineData.MergedRequests` | sw/linux-2.6.23/block/deadline-iosched.c:161-180 | the survivor takes the place and the deadline of the request it swallowed exactly if that one is due earlier |
| `Deadline.DeadlineData.CheckFifoExact` | sw/linux-2.6.23/block/deadline-iosched.c:222-233 | the test of the head says whether any request of the direction has expired |
| `Deadline.DeadlineData.NewBatch` | sw/linux-2.6.23/block/deadline-iosched.c:265-325 | writes are chosen when there are no reads or they have starved; the oldest request when one has expired, else the next in order, else the lowest |
| `Deadline.DeadlineData.Batch` | sw/linux-2.6.23/block/deadline-iosched.c:247-266 | a batch goes on exactly with the next request when that is sequential and the batch is not used up |
| `Deadline.DeadlineData.Select` | sw/linux-2.6.23/block/deadline-iosched.c:239-331 | a request is selected iff any is queued; the running batch goes on exactly if its next request is sequential and the batch is not used up; else writes are chosen iff there are no reads or they have starved, and of them the oldest if it is late, else the next, else the lowest; the counts of the batch and of starving afterwards |
| `Deadline.DeadlineData.Dispatch` | sw/linux-2.6.23/block/deadline-iosched.c:239-336 | dispatches exactly the request that is to be selected whenever either fifo is non-empty; while writes wait at most (writes_starved + 1) * max(1, fifo_batch) reads go in a row |
| `Extents.ChainConcat` | sw/linux-2.6.23/block/ll_rw_blk.c:2817-2868 | joined chains are contiguous exactly when the second starts where the first ends |
| `Extents.DropChain` | sw/linux-2.6.23/block/ll_rw_blk.c:3438-3509 | completing whole sectors leaves a contiguous chain that starts where they end |
| `Extents.DropTiles` | sw/linux-2.6.23/block/ll_rw_blk.c:3438-3509 | what is left of a chain tiles the disk from the sector reached on exactly when whole sectors were completed |
| `Extents.DropTwice` | sw/linux-2.6.23/block/ll_rw_blk.c:3403-3511 | completing a and then b bytes leaves what completing a + b leaves, if and only if the second call ends the bio in which the first stopped, or nothing was left of the chain, or the odd parts of the two counts stay below a sector |
| `Extents.HalfSectors` | sw/linux-2.6.23/block/ll_rw_blk.c:3403-3511 | two halves of a sector completed one after the other leave the bio one sector behind |
| `Extents.EndsConserve` | sw/linux-2.6.23/block/ll_rw_blk.c:3443-3503 | every byte of every bio is reported exactly once, now or later |
| `Extents.EndsTwice` | sw/linux-2.6.23/block/ll_rw_blk.c:3443-3503 | the completion calls of two completions report for every bio as much as those of one |
| `Extents.Request.constructor` | sw/linux-2.6.23/block/ll_rw_blk.c:2892-2924 | a request made from a bio tiles the bio's sectors |
| `Extents.Request.RecalcSectors` | sw/linux-2.6.23/block/ll_rw_blk.c:3374-3401 | the block layer's fields follow the chain; the driver's fields are moved up exactly if they are not ahead, and then the request is never found botched |
| `Extents.Request.EndFirst` | sw/linux-2.6.23/block/ll_rw_blk.c:3403-3511 | for any number of bytes the bio and segment loop leaves the remainder, makes the right completion calls and says whether anything is left; the tiling survives exactly when whole sectors were completed |
| `Extents.Request.MergeBio` | sw/linux-2.6.23/block/ll_rw_blk.c:2954-2998 | a back or front merge keeps the tiling and extends it by exactly the bio |
| `Extents.Request.AttemptMerge` | sw/linux-2.6.23/block/ll_rw_blk.c:2817-2868 | two requests merge iff they touch, into the union of their stretches |
| `TagMap.BlkQueueTag.NoSharing` | sw/linux-2.6.23/block/ll_rw_blk.c:1123-1158 | no two outstanding requests share a tag |
| `TagMap.BlkQueueTag.constructor` | sw/linux-2.6.23/block/ll_rw_blk.c:889-941 | a new map has all tags free and the depth asked for, or the queue's limit if that is lower |
| `TagMap.BlkQueueTag.Share` | sw/linux-2.6.23/block/ll_rw_blk.c:960-989 | once another queue has taken the map, a resize is refused exactly when it needs a larger map |
| `TagMap.BlkQueueTag.Free` | sw/linux-2.6.23/block/ll_rw_blk.c:815-835 | the last one to let go finds no tag in use |
| `TagMap.BlkQueueTag.FindFree` | sw/linux-2.6.23/block/ll_rw_blk.c:1137-1145 | the lowest free tag below the depth |
| `TagMap.BlkQueueTag.Start` | sw/linux-2.6.23/block/ll_rw_blk.c:1123-1158 | a request gets the lowest free tag, and none exactly when all below the depth are taken |
| `TagMap.BlkQueueTag.End` | sw/linux-2.6.23/block/ll_rw_blk.c:1064-1101 | its tag is freed; the reported oddities never occur |
| `TagMap.BlkQueueTag.Resize` | sw/linux-2.6.23/block/ll_rw_blk.c:1001-1046 | growing or shrinking loses no outstanding tag, also those beyond the new depth; a shared map is not replaced; both depths afterwards |
| `TagMap.CopyFits` | sw/linux-2.6.23/block/ll_rw_blk.c:889-896 | the old map fits into the new one exactly when the queue's limit is not below the old depth |
| `TagMap.CopyOverflows` | sw/linux-2.6.23/block/ll_rw_blk.c:1001-1046 | a map of depth 200 that is to grow to 201 after the number of requests was lowered to 4 does not fit into the new one |
| `DispatchSort.Dispatch.Place` | sw/linux-2.6.23/block/elevator.c:410-426 | the place is behind every fence, before all that is greater and not before what is not |
| `DispatchSort.Dispatch.Sort` | sw/linux-2.6.23/block/elevator.c:396-429 | a sorted stretch behind the last fence stays sorted by the sweep, equal sectors keep their order, no fence is passed and all else keeps its order |
| `DispatchSort.Dispatch.AddTail` | sw/linux-2.6.23/block/elevator.c:438-450 | the request goes to the end and the sweep starts behind it, so that nothing starting outside it comes after it in the new order |
| `DispatchSort.SortedInsert` | sw/linux-2.6.23/block/elevator.c:396-429 | inserting at such a place keeps a stretch sorted |
| `MergeHash.ForgetOk` | sw/linux-2.6.23/block/elevator.c:285-294 | deleting a request keeps every other one where a look-up finds it |
| `MergeHash.EnterOk` | sw/linux-2.6.23/block/elevator.c:296-302 | adding one does |
| `MergeHash.UnmergeableOk` | sw/linux-2.6.23/block/elevator.c:320-323 | so does dropping one that may not be merged |
| `MergeHash.Elevator.InsertSort` | sw/linux-2.6.23/block/elevator.c:580-596 | a mergeable request is hashed under its end and tried first exactly if none was |
| `MergeHash.Elevator.SetNoMerge` | sw/linux-2.6.23/block/ll_rw_blk.c:1423-1437 | a request that may no longer be merged stays hashed but is not the one tried first |
| `MergeHash.Elevator.MergedRequest` | sw/linux-2.6.23/block/elevator.c:486-497 | a back merge moves the request to its new end, a front merge keeps its key |
| `MergeHash.Elevator.Reposition` | sw/linux-2.6.23/block/elevator.c:304-308 | a request is moved to the bucket of its new end |
| `MergeHash.Elevator.MergeRequests` | sw/linux-2.6.23/block/elevator.c:499-512 | the survivor is found under the swallowed request's end, which itself is forgotten |
| `MergeHash.Elevator.Dispatched` | sw/linux-2.6.23/block/elevator.c:396-450 | neither hash nor cache names a dispatched request |
| `MergeHash.Elevator.Find` | sw/linux-2.6.23/block/elevator.c:310-330 | finds a request iff some mergeable queued one ends at the sector |
| `Digest.LittleEndianIs` | sw/linux-2.6.23/crypto/md5.c:207-208 | the eight bytes of the bit count stand for it |
| `Digest.BigEndianIs` | sw/linux-2.6.23/crypto/sha1.c:92-100 | the bytes of the bit count the other way round |
| `DigestContexts.FirstBlock` | sw/linux-2.6.23/crypto/sha1.c:61-74 | the buffered bytes and the first new ones make up the next block of the message |
| `DigestContexts.Sha1.FirstTurn` | sw/linux-2.6.23/crypto/sha1.c:61-74 | with the counter of done bytes starting below zero and wrapping, the first turn compresses the buffered block |
| `DigestContexts.Sha1.Turns` | sw/linux-2.6.23/crypto/sha1.c:70-75 | the loop compresses exactly the whole blocks, its wrapping test included |
| `DigestContexts.Sha1.Update` | sw/linux-2.6.23/crypto/sha1.c:49-80 | after any pieces the context depends only on their concatenation |
| `DigestContexts.Sha1.Final` | sw/linux-2.6.23/crypto/sha1.c:84-108 | the digest is the compression function iterated over the padded message |
| `DigestContexts.TestExact` | sw/linux-2.6.23/crypto/sha1.c:61 | the test for a whole block is right exactly when the sum does not wrap |
| `DigestContexts.Md5.Blocks` | sw/linux-2.6.23/crypto/md5.c:174-188 | the buffered block and the whole blocks are compressed, the rest is buffered |
| `DigestContexts.Md5.Update` | sw/linux-2.6.23/crypto/md5.c:161-189 | after any pieces the context depends only on their concatenation, for every length |
| `DigestContexts.Md5.Final` | sw/linux-2.6.23/crypto/md5.c:191-215 | the digest is iterated compression over the padded message, one or two blocks being finished |
| `DigestContexts.Sha256.Blocks` | sw/linux-2.6.23/crypto/sha256.c:263-277 | the buffered block and the whole blocks are compressed, the rest is buffered, the loop's wrapping test included |
| `DigestContexts.Sha256.Update` | sw/linux-2.6.23/crypto/sha256.c:247-278 | after any pieces the chaining state and the buffer depend only on their concatenation, and the two count words hold the bit length exactly when the update is below 2^29 bytes or the low word wraps |
| `DigestContexts.CountBits` | sw/linux-2.6.23/crypto/sha256.c:256-260 | the two words hold the new bit length if and only if the update is below 2^29 bytes or the low word wraps |
| `DigestContexts.CountLost` | sw/linux-2.6.23/crypto/sha256.c:256-260 | an empty context fed 2^29 bytes at once counts none of their bits |
| `DigestContexts.LoopTestExact` | sw/linux-2.6.23/crypto/sha256.c:269 | the loop's test is right at every turn exactly when the buffered and new bytes stay below 2^32 |
| `DigestContexts.CountBytes` | sw/linux-2.6.23/crypto/sha256.c:289-299 | the two count words in big-endian order are the 64-bit length |
| `DigestContexts.Sha256.Final` | sw/linux-2.6.23/crypto/sha256.c:280-307 | the digest is iterated compression over the padded message |
| `CryptoQueue.Cryptd.constructor` | sw/linux-2.6.23/crypto/algapi.c:523-529 | an empty queue |
| `CryptoQueue.Cryptd.Enqueue` | sw/linux-2.6.23/crypto/algapi.c:532-550 | a request is accepted unless the queue is full and it may not wait; the backlog pointer is at the list head iff the queue is not over-full, else at the first request too many |
| `CryptoQueue.Cryptd.Dequeue` | sw/linux-2.6.23/crypto/algapi.c:553-569 | the oldest request, and the pointer moves with the backlog |
| `CryptoQueue.Cryptd.Turn` | sw/linux-2.6.23/crypto/cryptd.c:314-350 | service is first in, first out, and the request that leaves the backlog is told before |
| `CryptoQueue.TurnBooks` | sw/linux-2.6.23/crypto/cryptd.c:314-350 | a turn keeps the books: what is served, told and still waiting |
| `CryptoQueue.Joined` | sw/linux-2.6.23/crypto/algapi.c:532-550 | so does a request that joins |
| `CryptoQueue.LeftExactlyOnce` | sw/linux-2.6.23/crypto/cryptd.c:72-101 | in every run a request that left the list has exactly one final completion, and exactly one -EINPROGRESS before it iff it had waited in the backlog |

## Left out

- Tag-ordered barriers, `orderr` and the error status of a barrier; flush requests are taken not to be file system requests.
- Insertion at the back drains the io scheduler first; in the machine that is a number of earlier dispatch steps.
- TagMap.BlkQueueTag.Resize: a map that grows is assumed not to be clamped below its old depth, because the code copies the old arrays back at their full old length; `TagMap.CopyFits` says exactly when that fits.
- DigestContexts.Sha1.Update: a single update whose length and buffered bytes together reach 2^32 is excluded, because the test for a whole block wraps; `DigestContexts.TestExact` says exactly when it does.
- DigestContexts.Sha256.Update: a single update whose length and buffered bytes together reach 2^32 is excluded, because the loop's test wraps and the loop goes on past the data; `DigestContexts.LoopTestExact` says exactly when it does.
- BlockWalk.Crypt: the 128-bit counter of LRW must not pass 2^128 - 1, because an all-ones counter has no entry in the increment table; `Lrw.IndexInRange` says exactly when that happens. Allocation always succeeds, and only walks by virtual address are modelled; source and destination bytes are the same byte for byte or do not meet.
- Lrw.SetKey: bit numbers in the increment table are by byte order whatever the host.
- Extents.Request.EndFirst: `bio_endio` is taken to reduce a bio's size and advance its sector.
- AsCache.DispatchKeepsBest: requests do not overlap; `AsCache.DispatchExact` says exactly when the cache stays right if they do. After a front merge the code does not adjust the cache, so front merges are not among the anticipatory scheduler's operations.
- AsLane.AddInv: a new request does not overlap a queued one, for the same reason.
- AsLane.GrowInv: a request does not grow over the next one, for the same reason.
- AsSched.AsData.AddRequest: a new request starts at the sector of a queued one or does not overlap any.
- AsSched.AsData.BackMerged: a request does not grow over the next one.
- The anticipatory scheduler's statistics, timers and io contexts, and what it anticipates.
- CFQ's time slices, idling, priorities and reference counts. A queue keeps the class it was allocated with: priority boosts, which change a class without sorting the queue in again, are left out, and with them the times at which the service tree is out of order. Whether a slice is used up, a queue is waited for or the idle class has to wait are parameters.
- The entries of Camellia's four S-boxes and its SIGMA constants are parameters; the code's four tables are taken to combine those S-boxes as their names say.
- The compression functions of the digests and the block cipher under a mode are parameters: the results hold for all of them.
- `gf128mul_lle` and `gf128mul_bbe`, the slow multipliers without tables: the product of polynomials is the specification instead.
- Segment counting, bounce buffers, partitions, plugging, statistics and tracing.
- The remaining ciphers, `ecb`, `hmac`, the hash and compression front ends, algorithm registration and the noop scheduler.
