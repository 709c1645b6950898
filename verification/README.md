# Verified model of the inter-core message queue service

The service moves small messages between the cores of one chip. Every core runs the same driver. A
driver keeps a table of message queues looked up by key, each queue a circular buffer of fixed slots, and
a table of names from which keys are hashed. To send, a driver copies the payload into one of two
buffer halves kept for the destination, writes a command (key, address, size) into three mailbox
registers and triggers the other core. The interrupt handler there reads the command, copies the
payload out of shared memory into the queue of that key, and acknowledges. A character device hands
queues out to open files, and a user library opens and closes the device as queues come and go.

The model covers all of this, from the bytes in the slots and halves up to the library's counter, and
proves what the service is for: messages arrive in order, each once, byte for byte.

| file | content |
|---|---|
| `Common.dfy`, `Runs.dfy` | fixed-width integers, constants, first matching index; runs of a step function |
| `NameHash.dfy` | the 16-bit rotate-and-add hash of a name |
| `RingBuffer.dfy` | one queue's slots and indices, on values |
| `Registry.dfy` | queue table and token table: operations, the map they stand for, runs |
| `TokenLife.dfy` | the token rows byte by byte over the life of queues |
| `MsgQueue.dfy` | both tables as classes updated in place, proved against `Registry` |
| `Mailbox.dfy` | command registers, acknowledgement, and the driver of the communicator |
| `SendBuffer.dfy` | carving of the send region, address translation |
| `Transfer.dfy` | the whole transfer as a state machine of three cores |
| `Conservation.dfy` | its history per pair of cores and per key, and what single calls do to it |
| `TransferInvariant.dfy` | what every step of it keeps |
| `Progress.dfy` | runs that complete; recovery from a stall; a pair that is stuck |
| `Delivery.dfy` | delivery over all runs, and which messages are lost |
| `Guards.dfy` | what breaks without the wait for the ack |
| `Permits.dfy` | how many senders can be at work on a pair, and what misuse of the semaphore does to that |
| `Completion.dfy` | from every reachable state a message can still get through |
| `Startup.dfy` | runs from init to the states in which things go wrong |
| `MsgTransfer.dfy` | the send call and the receive handler of one core, in place, tied to the machine |
| `Receive.dfy` | the blocking receive with interference |
| `Ownership.dfy`, `Library.dfy` | who holds which queue; the library's count |
| `Bits.dfy`, `IpcMain.dfy` | bit operations on a word; the device and the library as classes |

## Main results

* `Delivery.EveryRunConserves` and `Delivery.EndToEnd`: three cores, any number of sending threads,
  byte-by-byte copies on both sides, all interleavings. What was commanded on a pair of cores is what
  arrived in the receiver's queues plus at most one command in flight; what arrived under a key is what
  left the queue plus what waits in it. The addresses go through the registers, both translations and
  the receiver's window. Everything that left a queue was handed over exactly when no receive found a
  message longer than its buffer and no release found messages waiting; `Delivery.ShortBufferLoses` shows how one is lost
  after it was acknowledged, `Delivery.RoomyBuffersDeliver` that 24-byte buffers lose nothing.
* `Guards.UnackedCommandCostsOne`: a command triggered over an unacknowledged one costs exactly one
  message in every continuation. If nobody had begun to read the earlier command it is that one
  (`Guards.OverwrittenIsLost`); if the receiver has read it, its acknowledgement covers the new one, and
  the new one is lost (`Guards.NewCommandIsLost`). `Guards.WithoutWaitTheHalfIsReused` shows the other
  damage, the payload replaced under the reader.
* `Permits.InterruptedWaitNeverHeals`: going on after an interrupted wait for the semaphore, as the code
  does, adds a permit each time that no run ever takes back; `Permits.UnreleasedBlocksForever` is the
  opposite slip.
* `Completion.MessageGetsThrough`: from every reachable state, whatever everybody is in the middle of,
  some run ends a given send with its message at the end of its queue, if what is under way on the pair
  is for live queues. `Progress.StuckPairBlocksAllKeys` is the other side: while the command in flight
  finds no room the pair carries nothing else, under any key.
* `Startup.LossFromStart`, `Startup.CrowdFromStart`: the failing traces start from init.
* `MsgTransfer.SendProjects`, `MsgTransfer.ReceiveProjects`, `MsgTransfer.RcvProjects`: the calls proved on
  the in-place classes are runs of that machine.
* `Registry.*Refines`: the queue table is a finite map from keys to bounded message sequences.
* `RingBuffer.RingIsFifo`: the circular buffer is a queue over runs of any length.
* `NameHash.AdjacentSwap`, `NameHash.OneCharacterDecides`, `NameHash.SuffixCancels`,
  `NameHash.RepeatCollision`: which names collide.
* `Registry.ShortNamesAreSafe`: a name is stored under its key whatever the memory held iff it has fewer
  than 32 characters; `Registry.NextNameTakesToken`: otherwise a later name can change what is read of it.
* `TokenLife.RelTakesOneToken`: a release turns exactly one row read as the key into an empty one, so a
  second queue of the same name cannot be released unless the name is stored again
  (`TokenLife.SecondLifeLeaks`). `TokenLife.LastBytesStay`: over every run nothing writes the last byte of
  a row, so a short name used before does not help a long one (`TokenLife.ShortThenLong`).
* `Library.RunKeepsFile`, `Library.RelMeans`: over all permitted runs a process has one file open at most
  and keeps its descriptor until the release that brings its count to zero; a release answers 0 exactly
  when it freed the queue, on a closed device too.
* `Registry.RunKeepsTokens`, `Registry.UntokenedQueueStays`, `Ownership.RunKeepsSound`,
  `Library.RunKeepsStep`: names, owners and counts agree with the live queues over all runs that keep to
  the stated rules, one of which is that names are stored where they end.

## How the code is read

The C files contain slips that keep them from compiling or that contradict the evident intent. The
model takes the following reading.

* Empty means `count == 0`. The coded test `indx == outdx` (`drv_ipc_msgque.c:323`) holds exactly for a
  queue of one message (`RingBuffer.IndexTest`), and lets a dequeue go right exactly when two messages or
  more wait (`RingBuffer.CodedTakeIsRight`).
* `drv_ipc_msgque.c:179` is a `for` loop, `:371` compares, `:386` names the file's lock, and every exit of
  a locked section releases the lock; a locked section is one atomic step.
* `drv_ipc_api.c:54` compares the `sendTo` field, not the buffer's address, with `IPC_SENDTO_CORE3`.
* `ipc_msg_snd` returns the result of the command and releases the semaphore on every exit after taking
  it (`drv_ipc_api.c:65-68` does not, see `Permits.UnreleasedBlocksForever`). Its callers pass `sendTo >= 1`.
* A send waits for the semaphore without being interrupted. The code ignores the result of
  `down_interruptible` (`drv_ipc_msgque.c:491`), so an interrupted sender goes on without having taken the
  semaphore and releases it afterwards all the same. That is never harmless: from then on two senders of
  the pair can be at work at once (`Permits.InterruptedWaitNeverHeals`).
* `ipc_cc_send_cmd` waits for the previous acknowledgement of the same pair (the open point at
  `ipc-cc.c:171-172`), sets all three register offsets (`:152`, `:158` set the second twice), and uses
  for every running core the register table of `ipc_cc_get_cmd`, whose cases do not fall through. `CPU3`
  of the enumeration and `DSP` name the same core.
* The GET call of the device creates the queue (`drv_ipc_main.c:105` calls the lookup), and the REL call
  unlocks `ipc_mutex` after clearing the bit (`:138` locks it a second time).
* The last check of a receive and its dequeue are one atomic step, and so are dequeue and size test.
* `ipc_msg_rcv` copies `size` bytes (`drv_ipc_api.c:160`), and a slot or half holds the 24 bytes that are
  admitted (`ipc-common.h:34,40` declare 12).

Three findings are kept as the code has them. The token rows have 33 bytes of which `strncpy` writes 32
and nothing ever writes the last, so behind a name of 32 characters or more the final NUL can be missing,
and the string read from its row then runs on into the next. Such a name can be stored under another key, and the
release of its queue then fails (`Registry.ShortNamesAreSafe`, `Registry.LongNameLeaks`,
`Registry.LongNameExample`); and storing the next name changes the key (`Registry.NextNameTakesToken`,
`Registry.NextNameExample`). The results on tokens over several calls therefore ask that every row ends its
own string, which `Registry.TidyKeepsTerminated` says exactly when a step keeps. The REL call of the device clears the caller's bit even when the release
fails: that does no harm exactly when the id can be released and is the caller's own, or neither
(`Ownership.RelKeepsOwned`), and a queue without a stored name is lost by it
(`Ownership.UntokenedQueueIsLost`, `Ownership.LostQueueExample`). And a receive takes a message off its
queue before it finds the buffer too small (`drv_ipc_api.c:150-159`, `Delivery.ShortBufferLoses`).

## Model

| member | source | states |
|---|---|---|
| `NameHash.ComputeNameHash` | kernel_space/drv_chardev/drv_ipc_msgque.c:110-128 | the loop computes the recursive hash of the whole name |
| `NameHash.StepBijective` | kernel_space/drv_chardev/drv_ipc_msgque.c:123 | each hash step is one-to-one and onto on 16-bit states |
| `NameHash.SuffixCancels` | kernel_space/drv_chardev/drv_ipc_msgque.c:121-125 | a common suffix neither creates nor hides a collision, for all names |
| `NameHash.OneCharacterDecides` | kernel_space/drv_chardev/drv_ipc_msgque.c:121-125 | names differing in exactly one character never share a key |
| `NameHash.AdjacentSwap` | kernel_space/drv_chardev/drv_ipc_msgque.c:121-125 | swapping distinct neighbours keeps the key iff the codes are consecutive and the lower one carries the rotated state to 0xFFFF |
| `NameHash.ShortCollision` | kernel_space/drv_chardev/drv_ipc_msgque.c:121-125 | the hash is not injective: two two-letter names collide |
| `NameHash.RepeatCollision` | kernel_space/drv_chardev/drv_ipc_msgque.c:121-125 | names of the form 2c, c, c, … share the key 2c at every length: "b", "b1", "b11" |
| `RingBuffer.PutKeeps` | kernel_space/drv_chardev/drv_ipc_msgque.c:391-397 | the slot overwritten by an enqueue holds no queued message, and the stale tail of the slot does no harm |
| `RingBuffer.TakeKeeps` | kernel_space/drv_chardev/drv_ipc_msgque.c:460-466 | a dequeue reads the oldest queued message whole |
| `RingBuffer.IndexTest` | kernel_space/drv_chardev/drv_ipc_msgque.c:316-331 | `indx == outdx` iff one message is queued; one position on, equality means empty or full |
| `RingBuffer.CodedTakeIsRight` | kernel_space/drv_chardev/drv_ipc_msgque.c:451-475 | guarded by the coded test a dequeue goes right iff at least two messages wait; from an empty queue it wraps the count past the capacity |
| `RingBuffer.FreshRing` | kernel_space/drv_chardev/drv_ipc_msgque.c:195-197 | the initial fields represent the empty queue with the indices -1 and 0 modulo the slots |
| `RingBuffer.RingIsFifo` | kernel_space/drv_chardev/drv_ipc_msgque.c:381-475 | over any run the messages out are the messages accepted, in order and byte for byte; count and indices are the counts of both modulo the slots |
| `MsgQueue.MsgQue.Enqueue` | kernel_space/drv_chardev/drv_ipc_msgque.c:381-405 | appends the message, or refuses a full queue and changes nothing |
| `MsgQueue.MsgQue.Dequeue` | kernel_space/drv_chardev/drv_ipc_msgque.c:451-475 | takes the head, or refuses an empty queue and changes nothing |
| `MsgQueue.MsgQue.LiveView` | kernel_space/drv_chardev/drv_ipc_msgque.c:316-362 | the empty and full tests say what the abstract queue says |
| `MsgQueue.MsqInfo.constructor` | kernel_space/drv_chardev/drv_ipc_msgque.c:53-60 | init leaves no live queue and no stored name, whatever the memory held |
| `MsgQueue.MsqInfo.Ftok` | kernel_space/drv_chardev/drv_ipc_msgque.c:129-154 | acts on the tables as the abstract `ftok`, whose effect on every byte of the rows is `TokenLife.FtokRows`; returns the key of the whole name |
| `MsgQueue.MsqInfo.GetIDbyKey` | kernel_space/drv_chardev/drv_ipc_msgque.c:208-229 | returns the id stored in the live entry with the key, or -3 |
| `MsgQueue.MsqInfo.GetQuebyID` | kernel_space/drv_chardev/drv_ipc_msgque.c:235-262 | returns the entry iff the id is in range and live |
| `MsgQueue.MsqInfo.GetTokenByKey` | kernel_space/drv_chardev/drv_ipc_msgque.c:266-283 | returns the first row from which a string with the key is read, across rows where one does not end |
| `MsgQueue.MsqInfo.Get` | kernel_space/drv_chardev/drv_ipc_msgque.c:158-203 | acts on the tables as the abstract `get`, with its results -1 and -2 |
| `MsgQueue.MsqInfo.Rel` | kernel_space/drv_chardev/drv_ipc_msgque.c:285-314 | acts on the tables as the abstract `rel`, with its results -1 and -2; the effect on every byte of the rows is `TokenLife.RelRows` |
| `MsgQueue.MsqInfo.MsgPost` | kernel_space/drv_chardev/drv_ipc_msgque.c:411-449 | acts on the tables as the abstract `post`, with its results -2, -3 and -4 |
| `MsgQueue.MsqInfo.DequeueFrom` | kernel_space/drv_chardev/drv_ipc_msgque.c:451-475 | acts on the tables as the abstract `dequeue` |
| `Registry.LookupAgrees` | kernel_space/drv_chardev/drv_ipc_msgque.c:208-229 | the lookup answers i iff entry i is live with the key, and fails iff no live queue has it, whatever the scan order |
| `Registry.GetRefines` | kernel_space/drv_chardev/drv_ipc_msgque.c:169-202 | `get` inserts an empty sequence under the key; it fails iff the key is present or every entry is live, and then changes nothing |
| `Registry.GetFailsWhenMapFull` | kernel_space/drv_chardev/drv_ipc_msgque.c:179-190 | for a new key `get` fails iff the map has as many keys as the table has entries |
| `Registry.RelRefines` | kernel_space/drv_chardev/drv_ipc_msgque.c:290-313 | `rel` deletes one key and one token; it succeeds iff the id is live and a token hashes to its key, and answers -1 iff the id is not live; no other queue or nonzero token key is affected |
| `Registry.PostRefines` | kernel_space/drv_chardev/drv_ipc_msgque.c:424-448 | `msgpost` appends under one key iff size, id and room allow it; otherwise it changes nothing and answers -2, -3 or -4 by the first test that fails |
| `Registry.DequeueRefines` | kernel_space/drv_chardev/drv_ipc_msgque.c:455-473 | `dequeue` pops the head of one key, or finds it empty and changes nothing |
| `Registry.StringStep` | kernel_space/drv_chardev/drv_ipc_msgque.c:121-125 | a row with a NUL is read up to it; any other is read on into the rows that follow |
| `Registry.StoredKey` | kernel_space/drv_chardev/drv_ipc_msgque.c:144-148 | a name below 32 characters is stored whole; of a longer one 32 characters are read, then, unless it is NUL, the byte nobody writes and the rows behind |
| `Registry.ShortNamesAreSafe` | kernel_space/drv_chardev/drv_ipc_msgque.c:144-148 | what is read from the row hashes to the key of the name, for whatever the table held, iff the name has fewer than 32 characters |
| `Registry.LongNameLeaks` | kernel_space/drv_chardev/drv_ipc_msgque.c:129-313 | for every longer name with a nonzero key there is a memory content on which `ftok` and `get` succeed after init and `rel` fails with -2 |
| `Registry.LongNameExample` | user_space/libipc/ipclib.c:45-46 | one such name of 32 characters, the longest the library passes on: `ftok`, `get`, `rel` ends in -2 |
| `Registry.NextNameTakesToken` | kernel_space/drv_chardev/drv_ipc_msgque.c:129-313 | a queue created under the key read from a row that runs on can be released, until a name is stored in the row behind; then iff the longer string or the new name has that key |
| `Registry.NextNameExample` | kernel_space/drv_chardev/drv_ipc_msgque.c:129-313 | with the same 32-character name and then "z" the release turns from 0 to -2 |
| `Registry.FtokTokens` | kernel_space/drv_chardev/drv_ipc_msgque.c:141-153 | while every row ends its own string, `ftok` disturbs no stored token, and leaves one for its key iff one existed or what is read from the row it filled has that key |
| `Registry.ClearedRowsEnd` | kernel_space/drv_chardev/drv_ipc_msgque.c:53-60 | the rows as init leaves them end their own strings, whatever the memory held |
| `Registry.TidyKeepsTerminated` | kernel_space/drv_chardev/drv_ipc_msgque.c:141-153 | a step keeps every row ending its own string iff it stores no name, or a short one, or one before a NUL, or finds no empty row |
| `Registry.ApplyKeepsTokens` | kernel_space/drv_chardev/drv_ipc_msgque.c:129-313 | every operation keeps a token for every live queue with a nonzero key, if `get` is only called for stored names and names are stored where they end |
| `Registry.RunKeepsTokens` | kernel_space/drv_chardev/drv_ipc_msgque.c:129-313 | over all such runs every such queue can be released and no two rely on the same row |
| `Registry.TokenAppears` | kernel_space/drv_chardev/drv_ipc_msgque.c:141-153 | while every row ends its own string, a key without a token gets one by `ftok` filling a row read as that key, or, for key 0, by a release that empties a row, and by nothing else |
| `Registry.UntokenedQueueStays` | kernel_space/drv_chardev/drv_ipc_msgque.c:300-310 | over every run that stores names where they end and no token for its key, a queue without one stays live and every release of it fails; after one more step it can be released iff that step stores one |
| `Registry.NamedQueueComesAndGoes` | kernel_space/drv_chardev/drv_ipc_msgque.c:129-313 | `ftok`, `get`, `rel` of a new short name succeed and restore the map |
| `Registry.StrNCpyBytes` | kernel_space/drv_chardev/drv_ipc_msgque.c:146 | byte by byte: the name, NULs up to 32, and the last byte as it was |
| `TokenLife.FtokRows` | kernel_space/drv_chardev/drv_ipc_msgque.c:141-151 | `ftok` writes 32 bytes of the first empty row: the name, then NULs; every other byte of every row stays |
| `TokenLife.RelRows` | kernel_space/drv_chardev/drv_ipc_msgque.c:285-314 | a successful `rel` writes 0 over the first byte of the first row read as the key, and no other byte; the entry keeps its key |
| `TokenLife.RelTakesOneToken` | kernel_space/drv_chardev/drv_ipc_msgque.c:304 | while every row ends its own string, `rel` takes one row from the key and makes one more empty; the rows of every other nonzero key stay |
| `TokenLife.LastTokenGoes` | kernel_space/drv_chardev/drv_ipc_msgque.c:304 | after a release the key has a token iff more than one row was read as it |
| `TokenLife.SecondLifeLeaks` | kernel_space/drv_chardev/drv_ipc_msgque.c:129-313 | for every new short name: `ftok`, `get`, `rel`, `get`, `rel` ends in -2 |
| `TokenLife.SecondLifeExample` | kernel_space/drv_chardev/drv_ipc_msgque.c:129-313 | for instance "b" on fresh tables |
| `TokenLife.CycleClears` | kernel_space/drv_chardev/drv_ipc_msgque.c:129-313 | on cleared tables `ftok`, `get`, `rel` of a short name succeed and leave cleared tables |
| `TokenLife.LastBytesStay` | kernel_space/drv_chardev/drv_ipc_msgque.c:146 | over every run from any tables the last byte of every row stays what the memory held |
| `TokenLife.ShortThenLong` | kernel_space/drv_chardev/drv_ipc_msgque.c:129-313 | a short name stored and released before does not save the long one whose copy hashes to another key: its release ends in -2 |
| `TokenLife.ShortThenLongExample` | kernel_space/drv_chardev/drv_ipc_msgque.c:129-313 | for instance "b", then the 32-character name that starts with it |
| `Mailbox.PairsOwnRegisters` | kernel_space/inc/cc_reg.h:271-290 | sender and receiver use the same three registers for a pair, and no register serves two pairs |
| `Mailbox.RegisterMap` | kernel_space/inc/cc_reg.h:271-290 | the registers of the six pairs lie one behind the other from 0x100 on, three words each, for sender and receiver |
| `Mailbox.RegistersAfterSend` | kernel_space/inc/cc_reg.h:292-298 | after a send the pair's first word has the opcode in its upper half and the serial number in its lower, then come address and size; no other word changes |
| `Mailbox.CommandRead` | kernel_space/drv-cc/ipc-cc.c:194-290 | what the receiver makes of its pair's three words, whatever they hold |
| `Mailbox.PutThenTake` | kernel_space/drv-cc/ipc-cc.c:178-184 | a written command is what its receiver reads, and no other pair notices |
| `Mailbox.MailboxRefines` | kernel_space/drv-cc/ipc-cc.c:117-290 | after any sequence of sends each receiver reads the last command of its pair, exactly iff the opcode fits 16 bits |
| `Mailbox.CcDev.SendCmd` | kernel_space/drv-cc/ipc-cc.c:117-190 | writes the pair's registers and marks it unacknowledged; refuses the own core |
| `Mailbox.CcDev.GetCmd` | kernel_space/drv-cc/ipc-cc.c:194-290 | reads the pair's registers; refuses the own core |
| `Mailbox.CcDev.SendAck` | kernel_space/drv-cc/ipc-cc.c:295-334 | acknowledges the peer's command; refuses the own core |
| `SendBuffer.Carve` | kernel_space/drv_chardev/drv_ipc_msgque.c:62-71 | the init loop gives destination i the halves 2i and 2i+1 and ends at the end of the region |
| `SendBuffer.HalvesTile` | kernel_space/drv_chardev/drv_ipc_msgque.c:16-21 | each byte of the region is in exactly one half, for any number of destinations and any size |
| `SendBuffer.TranslationKeepsOffset` | kernel_space/drv_chardev/drv_ipc_msgque.c:518-531 | sender and receiver translation keep a byte's offset under wrapping arithmetic, for any bases |
| `SendBuffer.WindowLeadsBack` | kernel_space/drv_chardev/drv_ipc_main.c:222-229 | read at position i from the translated address, the window leads back to the sender's byte at that position |
| `SendBuffer.TranslationInjective` | kernel_space/drv_chardev/drv_ipc_main.c:222-229 | distinct bytes stay distinct after both translations |
| `MsgTransfer.IpcCore.LockSndMsgBuff` | kernel_space/drv_chardev/drv_ipc_msgque.c:477-503 | hands out the current half, toggles the index, takes the semaphore |
| `MsgTransfer.IpcCore.MsgSnd` | kernel_space/drv_chardev/drv_ipc_api.c:7-71 | each result with its condition; on success the half holds the message, the registers the command, the rest of the region is untouched and the semaphore free; the half starts with the destination as a little-endian word, and that word, read back, chooses the core |
| `MsgTransfer.IpcCore.ViewsMean` | kernel_space/drv_chardev/drv_ipc_api.c:34-70 | what the contract of the send call leaves is what the runs of `SendProjects` and `RefusalProjects` leave |
| `MsgTransfer.IpcCore.CoreHandleFunc` | kernel_space/drv_chardev/drv_ipc_main.c:231-272 | posts the payload read through the window and acknowledges iff the queue is found and the post succeeds; otherwise nothing changes |
| `MsgTransfer.SendThenReceive` | kernel_space/drv_chardev/drv_ipc_api.c:42-52 | from the region and registers as the send call leaves them, the peer's handler reads the key and the very payload |
| `MsgTransfer.SendProjects` | kernel_space/drv_chardev/drv_ipc_api.c:34-70 | what the send call leaves of one core's state is what the machine's send run leaves, semaphores included |
| `MsgTransfer.RefusalProjects` | kernel_space/drv_chardev/drv_ipc_api.c:64-68 | the same for a send to the own core and the run that fills and gives up |
| `MsgTransfer.ReceiveProjects` | kernel_space/drv_chardev/drv_ipc_main.c:231-272 | what the handler leaves of its core's state is what the machine's run of it leaves, whether or not it can post |
| `MsgTransfer.RcvProjects` | kernel_space/drv_chardev/drv_ipc_api.c:150-161 | a receive that returns a message is the machine's step that takes and hands it over, -5 the one that takes it only, every other result takes nothing |
| `TransferInvariant.CopySpares` | kernel_space/drv_chardev/drv_ipc_api.c:43 | a byte stored by a sender lands outside the half in flight and outside every other half in use |
| `TransferInvariant.ImageWord` | kernel_space/drv_chardev/drv_ipc_api.c:42-54 | the four bytes at the start of a filled half, weighted by powers of 256, add up to the destination number |
| `TransferInvariant.PayloadByte` | kernel_space/drv_chardev/drv_ipc_main.c:255-264 | the handler reads the byte the sender stored, through both translations |
| `Conservation.LocalConserves` | kernel_space/drv_chardev/drv_ipc_msgque.c:285-313 | a local call removes from a key's queue exactly what is recorded as dropped, from the front |
| `Conservation.ReceiveConserves` | kernel_space/drv_chardev/drv_ipc_api.c:150-161 | a receive removes exactly the head it records, handed over or not |
| `Conservation.PostQueued` | kernel_space/drv_chardev/drv_ipc_msgque.c:424-448 | a post adds its message at the end under its own key and nowhere else |
| `TransferInvariant.StepKeeps` | kernel_space/drv_chardev/drv_ipc_api.c:35-70 | every step of every core keeps the invariant: one holder per pair, alternating halves, the flight intact, right bytes in the handler's hands, both conservation laws |
| `Delivery.EveryRunConserves` | kernel_space/drv_chardev/drv_ipc_main.c:240-272 | in every reachable state: commanded = arrived ++ at most one in flight, per pair; arrived = departed ++ queued, per key |
| `Delivery.EndToEnd` | kernel_space/drv_chardev/drv_ipc_api.c:34-70 | with one sender for a key: commanded = departed ++ queued ++ in flight; every departure was handed over iff no receive found a message longer than its buffer and no release found messages waiting |
| `Delivery.DeliveredIffFits` | kernel_space/drv_chardev/drv_ipc_api.c:150-161 | the same iff from any state, for any run |
| `Delivery.RoomyBuffersDeliver` | kernel_space/drv_chardev/drv_ipc_api.c:155-159 | over any run whose receives on the core bring 24 bytes or more every message fits |
| `Delivery.ShortBufferLoses` | kernel_space/drv_chardev/drv_ipc_api.c:150-159 | with a shorter buffer a run of send, receive handler and receive ends with the message acknowledged, off the queue and not handed over |
| `Delivery.TwoHalvesSuffice` | kernel_space/drv_chardev/drv_ipc_msgque.c:491-502 | in every reachable state the half being filled is not the one an unacknowledged command names, halves alternate, one holder per pair |
| `Progress.PostOrStall` | kernel_space/drv_chardev/drv_ipc_main.c:264-272 | the handler posts exactly the commanded payload and acknowledges iff there is room; otherwise only its own state changes |
| `Progress.StalledCommandRecovers` | kernel_space/drv_chardev/drv_ipc_main.c:231-272 | a stalled command is posted and acknowledged by one more turn once its queue has room |
| `Progress.SendCompletes` | kernel_space/drv_chardev/drv_ipc_api.c:34-70 | on an idle pair the send runs to its end, commands its message and frees the semaphore |
| `Progress.MessageArrives` | kernel_space/drv_chardev/drv_ipc_api.c:7-71 | sent over an idle pair to a core with room, a message is appended unchanged to the queue of its key |
| `Progress.StuckPairBlocksAllKeys` | kernel_space/drv_chardev/drv_ipc_main.c:264-272 | over every run in which the key in flight has no room the pair stays unacknowledged and no further command is triggered on it, under any key |
| `Completion.MessageGetsThrough` | kernel_space/drv_chardev/drv_ipc_api.c:34-70 | from every state that keeps the invariant some run ends a given send with its message posted and at the end of its queue, if what is under way on the pair and the message are for live queues |
| `Completion.ReachableGetsThrough` | kernel_space/drv_chardev/drv_ipc_api.c:34-70 | the same after any run from init |
| `Completion.ClearWay` | kernel_space/drv_chardev/drv_ipc_main.c:231-272 | the receiver can always be brought to rest with the pair acknowledged, if the command in flight is for a live queue |
| `Startup.Started` | kernel_space/drv_chardev/drv_ipc_msgque.c:129-203 | from init, storing a name and creating its queue on both sides reaches a state in which the pair can send |
| `Startup.LossFromStart` | kernel_space/drv_chardev/drv_ipc_api.c:150-159 | a run from init that loses an acknowledged message to a short buffer |
| `Startup.CrowdFromStart` | kernel_space/drv_chardev/drv_ipc_msgque.c:493-502 | a run from init to the state in which dropping the wait corrupts a message |
| `Guards.CommandNeedsAck` | kernel_space/drv-cc/ipc-cc.c:171-186 | triggering keeps the pair's conservation law iff the previous command is acknowledged |
| `Guards.UnackedCommandCostsOne` | kernel_space/drv-cc/ipc-cc.c:171-186 | over every continuation, one command of the pair is neither posted nor in flight if the previous one was unacknowledged, and none otherwise |
| `Guards.OverwrittenIsLost` | kernel_space/drv-cc/ipc-cc.c:171-186 | if the receiver had not begun to read, the missing one is the earlier command, over every continuation |
| `Guards.NewCommandIsLost` | kernel_space/drv-cc/ipc-cc.c:171-186 | if the receiver has read the earlier command, that one is posted and its ack covers the new one, which is missing over every continuation |
| `Guards.WithoutWaitTheHalfIsReused` | kernel_space/drv-cc/ipc-cc.c:171-172 | without the wait the next sender fills the half being read, and the handler reads its whole payload instead |
| `Guards.CrowdedStateReachable` | kernel_space/drv_chardev/drv_ipc_msgque.c:493-502 | three sends reach the state from which dropping the wait corrupts the first message |
| `Permits.PermitsConserved` | kernel_space/drv_chardev/drv_ipc_msgque.c:477-516 | over every run the semaphore's count and the number of senders at work on the pair add up to the same |
| `Permits.HandOutAddsPermit` | kernel_space/drv_chardev/drv_ipc_msgque.c:491-503 | from any state each interrupted wait makes that sum one more |
| `Permits.InterruptedWaitAddsPermit` | kernel_space/drv_chardev/drv_ipc_msgque.c:491 | in order, the first one makes it two; the senders are apart right after it iff the semaphore was free |
| `Permits.InterruptionsAddPermits` | kernel_space/drv_chardev/drv_ipc_msgque.c:477-516 | over every run with interrupted waits that sum grows by their number on the pair |
| `Permits.InterruptedWaitNeverHeals` | kernel_space/drv_chardev/drv_ipc_msgque.c:491 | after every run with k interrupted waits on a pair its senders are apart iff the semaphore counts at least k; so after one, while a sender is at work a waiting one can go on at once and then two are |
| `Permits.InterruptedSenderOverwrites` | kernel_space/drv_chardev/drv_ipc_msgque.c:491-502 | such a sender gets the half used last iff another holds the pair and has not triggered yet; filling it replaces the payload in flight |
| `Permits.UnreleasedBlocksForever` | kernel_space/drv_chardev/drv_ipc_api.c:65-68 | a refused send that returns without the release leaves its pair blocked over every run |
| `Receive.WaitForMessage` | kernel_space/drv_chardev/drv_ipc_api.c:111-147 | the wait loop returns 0 only with a message under the key seen on entry, and -1, -2, -3 under their exact conditions |
| `Receive.MsgRcv` | kernel_space/drv_chardev/drv_ipc_api.c:76-162 | every result with its exact condition, for any interference during the sleep; the loop sleeps at most once |
| `Receive.ReceiveRefines` | kernel_space/drv_chardev/drv_ipc_api.c:104-161 | a result of at least 0 returns and removes the head under the key seen on entry, -5 removes it, every other result removes nothing |
| `Receive.ReusedEntry` | kernel_space/drv_chardev/drv_ipc_api.c:129-133 | an entry released and handed out again during the sleep shows another key's message, so the check is needed |
| `Ownership.IoctlGetMeans` | kernel_space/drv_chardev/drv_ipc_main.c:90-120 | GET answers -1 iff the key has a queue, -2 iff it has none and every entry is live, otherwise the id of a new empty queue under the key, which the file then holds |
| `Ownership.IoctlRelMeans` | kernel_space/drv_chardev/drv_ipc_main.c:121-145 | REL answers 0 iff it frees the queue, -1 iff the id is not live, -2 iff it has no token; the caller's bit goes in any case and no other file's does |
| `Ownership.GetKeepsOwned` | kernel_space/drv_chardev/drv_ipc_main.c:90-120 | GET gives the file a queue nobody held |
| `Ownership.RelKeepsOwned` | kernel_space/drv_chardev/drv_ipc_main.c:121-145 | REL keeps every live queue owned exactly once iff the id is live with a token and held by the file, or neither |
| `Ownership.UntokenedQueueIsLost` | kernel_space/drv_chardev/drv_ipc_main.c:121-145 | GET then REL under a key without token leaves a live queue that no file holds |
| `Ownership.LostQueueExample` | kernel_space/drv_chardev/drv_ipc_main.c:90-145 | for instance with one open file on fresh tables and any key but 0: id 0, then -2 |
| `Ownership.ReleaseLoop` | kernel_space/drv_chardev/drv_ipc_main.c:69-76 | while every row ends its own string, the loop leaves queues outside the word alone and frees one inside iff its key has a token |
| `Ownership.LoopIsReleases` | kernel_space/drv_chardev/drv_ipc_main.c:69-76 | on any tables the loop is the run of the releases of the queues in the word, in the order of their ids |
| `Ownership.CloseFrees` | kernel_space/drv_chardev/drv_ipc_main.c:52-82 | under the same condition, closing leaves other files' queues and contents alone, and ownership intact iff each of its queues has a token |
| `Ownership.RunKeepsSound` | kernel_space/drv_chardev/drv_ipc_main.c:69-138 | over all allowed runs the files partition the live queues, held queues can be released, and any close frees exactly its own |
| `Library.GetMeans` | user_space/libipc/ipclib.c:59-78 | an id is that of a new queue under the key as a 16-bit number, and the count goes up; -1 iff the device cannot be opened or the key has a queue, -2 iff the table is full; a failed `get` changes neither tables nor count |
| `Library.RelMeans` | user_space/libipc/ipclib.c:80-100 | on an open or a closed device the result is 0 iff the call frees the queue; otherwise it is negative and nothing changes in the tables; the count, the descriptor and the open files follow |
| `Library.RelAgrees` | user_space/libipc/ipclib.c:80-100 | count and word stay in step after a release iff the queue can be released and is held, or neither, or the close wipes out the difference |
| `Library.RelHeldAgrees` | user_space/libipc/ipclib.c:90-98 | releasing a held queue succeeds; the device is closed iff it was the last, and the close frees nobody's queue |
| `Library.RunKeepsStep` | user_space/libipc/ipclib.c:9-100 | over all such runs the count is the number of queues the driver records for the process, and a positive count means an open device |
| `Library.EventKeepsFile` | user_space/libipc/ipclib.c:9-100 | an open descriptor changes only with the release that brings the count to zero, which takes it away |
| `Library.RunKeepsFile` | user_space/libipc/ipclib.c:9-100 | over every permitted run the open files are those of the others and the one of the descriptor, if any; the descriptor stays until such a release |
| `Library.OwnRunOpensOne` | user_space/libipc/ipclib.c:9-100 | over every run of a process alone, from no open file, the open files are exactly its descriptor, or none |
| `Bits.SetBit` | kernel_space/drv_chardev/drv_ipc_main.c:109 | setting bit i adds i to the set of one bits |
| `Bits.ClearBit` | kernel_space/drv_chardev/drv_ipc_main.c:137 | clearing bit i takes i out of it; a shift beyond the word has no effect |
| `Bits.TestBit` | kernel_space/drv_chardev/drv_ipc_main.c:71 | `w & (1 << i)` is nonzero iff i is in it |
| `Bits.PopCountIsSize` | user_space/libipc/ipclib.c:90-98 | the number of one bits is the size of the set |
| `IpcMain.IpcDriver.Get` | kernel_space/drv_chardev/drv_ipc_main.c:90-120 | on a 32-bit word per file, acts as the abstract GET on sets |
| `IpcMain.IpcDriver.Rel` | kernel_space/drv_chardev/drv_ipc_main.c:121-145 | on a 32-bit word per file, acts as the abstract REL on sets |
| `IpcMain.IpcDriver.Release` | kernel_space/drv_chardev/drv_ipc_main.c:52-82 | the loop that tests each bit acts as the abstract close |
| `IpcMain.IpcLib.Open` | user_space/libipc/ipclib.c:9-25 | opens the device only when it is closed; returns the descriptor, or -11 when there is none |
| `IpcMain.IpcLib.MsgGet` | user_space/libipc/ipclib.c:59-78 | acts as the abstract library `get` |
| `IpcMain.IpcLib.MsgRel` | user_space/libipc/ipclib.c:80-100 | acts as the abstract library `rel`, closing at zero; -1 on a closed device |
| `IpcMain.IpcLib.CountsBits` | user_space/libipc/ipclib.c:80-100 | in step with the driver the library's count is the number of one bits in its file's word |

## Left out

- Mailbox.CcDev.SendCmd: the wait for the previous acknowledgement is a precondition, because the values of the `CLEAR_ACK` and `DATA_TRIGGER` registers are not part of the repository; triggering adds the pair to the set of unacknowledged ones.
- Mailbox.CcDev.SendAck: the write of the ACK register is the removal of the pair from that set, for the same reason.
- Device and platform set-up, device tree, suspend and resume, module init and exit, and error unwinding there.
- Failures of allocation, of copies to and from user space and of `ioctl` as such; the not-initialised checks of each call.
- Handler registration and interrupt dispatch (`ipc-cc.c:46-114`, `:441-505`): short case splits.
- Registers other than the command buffers. The values `CLEAR_ACK` and `DATA_TRIGGER` are not part of the repository, so trigger and acknowledgement are a set of unacknowledged pairs; a triggered event stays raised until it is acknowledged.
- `Transfer`: a local `get` takes the 16-bit keys the device passes on; what a wider key would lose in the opcode field is stated in `Mailbox.MailboxRefines`.
- `Library`: an open file is known by one number, so equal descriptor numbers in different processes are told apart as different files.
- The handler runs in interrupt context, so local calls of the same core do not interleave with it; calls of other cores do.
- The shift by 32 or more that REL performs for a wild id, undefined in C, has no effect here.
- The contents of fresh kernel memory, except where they matter (the last byte of a token row).
- Registry.StringFrom: a string that does not end in the last row of the token table is read to the end of the table, not into the send buffer descriptors behind it; the results that ask for rows ending their own strings do not depend on this.
- The value `ipc_release` returns, and the choice of wake-up call in the handler.
- `ipc_close` of the library, which leaves a stale descriptor and count; its run is excluded.
- The library's `snd`, `rcv` and `ftok` beyond the opening of the device.
- Threads inside one process of the library: its counter is not protected by the mutex.
