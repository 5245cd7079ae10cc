# MTCL: models and proofs of its protocols

MTCL gives programs one message interface over several transports, and collectives on top of them. The transports
that wrap MPI, UCX or MQTT are opaque; the layers written in the repository itself are small stateful protocols.
This project models those layers in Dafny and proves what they are for, over whole runs and under every timing.

Each component comes in two forms. A transition system on values (a state datatype with `Step` and `Run`) carries
the theorems. Beside it a class with the source's own fields, updated in place by loops and assignments, has
methods whose contracts say that the object's new state is the transition system's next state. Data that has not
arrived yet is modelled by letting a queue or stream hold everything its sender will ever put there and by short
reads, lags or process steps that are free to come in any order, so a theorem speaks of every interleaving.

## Components

| file | what it covers |
|---|---|
| `Bytes`, `Arith`, `Wrappers`, `Blocks` | big-endian encoding, copying into a buffer, products, quotients and finite sets, a buffer of equal blocks addressed by rank |
| `Binary32`, `ShmChannel`, `ShmRuns`, `ShmBuffer` | the shared-memory slot: writer and reader as interleaved locked steps, and the reader's chunk count, which goes through binary32 (IEEE 754-2019, section 4.3.1) |
| `Framing`, `Tcp` | length-prefixed messages over read and write calls that may be short |
| `HandleUser` | the cached header, the wrapper, and draining at shutdown |
| `HalfClose` | two endpoints and their EOS handshake |
| `ConnTcp`, `SelectScan`, `SelectRuns` | the select set, `fdmax` and the connection table; the scan of the ready descriptors with other threads at work between its visits |
| `Ownership`, `Polling` | who may read a handle, and its reference counter; all the scans of a process's life together with its handles, descriptors being reused |
| `Links`, `FanIn`, `FanInProbe`, `FanInRuns`, `Farm`, `Gather` | the generic collectives |
| `Exchange`, `ExchangeCalls` | the set-up exchanges of UCC and MPI collectives |
| `Team`, `Handshake`, `Manager`, `Contexts`, `Wakeups` | `createTeam`, the handshake of new connections, the Manager's queues and contexts, and roots waiting on one condition variable |
| `Bimap` | the proxy's bimap |

## What the callers have to respect

The theorems carry these hypotheses, which the code does not check:

- A user payload is not empty: length zero means EOS. `HalfClose.SendSafeIffNotEmpty` says that this guard is exact and
  `HalfClose.EmptySendLosesMessage` shows a message lost without it.
- `write` and `writev` make progress while bytes remain, and a non-blocking header read gets all eight bytes or
  none (`recv` is not repeated).
- A shared-memory data buffer has one reader and one writer, and the destination given to `get` is long enough.
- Peers send EOS before they disconnect. Where the code meets one that does not, the statements say what follows:
  `HandleUsers.DrainEndsUnlessPeerVanishes`, `HalfClose.HalfCloseIsSafe`, `Handshakes.HangingUpEndsTheWait`.
- The system gives out only descriptors that are not in use.
- `yield` is called through a wrapper that may read; a wrapper that is assigned to is empty; a process listens once,
  before it has connections. `Ownership.DisciplineIsExact` says that these three guards are exact.
- Links are FIFO and a send does not wait for its receiver. Both ends have the same native `int`.
- The processes of a team have the same configuration, to which no failed call has added a name, and the same build
  flags for MPI and UCC (`Teams.EveryoneAgrees`).
- Names of new handles, wrappers and contexts are fresh.

## Where the code does not do what one would expect

Each of these is a statement with its exact condition.

- The writer counts chunks by subtraction, the reader with `ceil((float)size / 2^22)`. The counts agree for every size
  up to 2^24. At 2^24 + 1 the reader is one chunk short; `Binary32.ChunkCountsAgree` says exactly when, and
  `ShmRuns.ExactIffCountable` that these are the only messages delivered wrong.
- The bimap pairs keys and values by position in two sorted sets. It is a map exactly while the live pairs are jointly
  increasing (`Bimap.MapIffIncreasing`); two crossed pairs are enough to break it (`Bimap.CrossedPairs`).
- A listed process takes its last position as its rank, so ranks number the team exactly when no name is listed twice
  (`Teams.RanksNumberTheTeam`), and a process that is not listed shares rank 0 (`Teams.UnlistedCollides`). The last name
  in the string must not be empty (`Teams.SplitJoin`).
- Looking up an unknown root enters it in the configuration, so the same name is accepted as a member afterwards
  (`Teams.LookupPollutes`).
- A gather turn delivers exactly when the block fits the size given (`Gather.TurnDeliversIffFits`). If it does not,
  the rank is lost and the block is taken for a rank by the next call: a block longer than an int is then refused
  for ever; one that fits an int is swallowed, with whatever `remote_rank` held for the bytes it lacks, and the call
  may report success with wrong data (`Gather.RetryCanDeliverIffNotLonger`, `Gather.RankTakenForBlock`).
- A team of one never forms, because no connection ever creates its group (`Managers.TeamOfOneNeverForms`).
- A peer that connects, says nothing and stays stops the thread that takes in connections
  (`Managers.SilenceStopsArrivals`); one that hangs up does not (`Handshakes.HangingUpEndsTheWait`).
- A blocking `setAsClosed` ends when the peer's EOS comes or a read fails. If the peer disappears without either, the
  loop spins; after a failed read it returns with the read side still open (`HandleUsers.DrainEndsUnlessPeerVanishes`).
- `finalize` without blocking closes descriptors whose peers may still be sending. A run is safe exactly when no end
  quits before it has read its peer's EOS (`HalfClose.HalfCloseIsSafe`), and a message is lost exactly when one was on
  the wire or still to be sent (`HalfClose.QuitLosesIffMessageToCome`, `HalfClose.QuitLosesMessage`).
- `notify_one` wakes one root, whichever it is. With two roots waiting in one process the one whose team is complete
  may sleep on (`Wakeups.WakeupSafeIffAlone`).
- A yield through a wrapper that may not read (`Ownership.BadYield`) lets a scan take one connection for another: the
  descriptor may be closed by its reader and given to a new connection between `select` and its turn
  (`Polling.SecondYieldMixesUp`). In disciplined runs this cannot happen (`Polling.EveryScanIsExact`).
- The poll of a context takes "nothing there" for a message and the end of a stream for none, and never sees shared
  memory. So it hands out contexts with nothing to read, and keeps some that have: `Contexts.HandedOutHasSomething`
  says when.
- A wrapper of a context that cannot receive counts as readable, but no one reads that context, before or after it
  yields (`Contexts.ClosedStaysUnread`).
- A non-blocking fan-in probe jumps the participant behind one that says EOS, and may answer "nothing yet" although that
  one has a message (`FanInProbes.NothingYetIsHonest`, `FanInProbes.JumpsTheNext`).
- A blocking fan-in probe spins when one participant has said EOS and another stays silent without closing; it ends
  exactly in the states of `FanIn.Live` (`FanInProbes.EndsIffLive`).
- `listen` clears the select set, so connections watched before are read by no one (`Ownership.BadListen`).

## Model

| member | source | states |
|---|---|---|
| Bytes.DecodeEncode | include/protocols/tcp.hpp:97-97 | decoding the big-endian encoding of any value that fits gives the value back |
| Bytes.EncodeDecode | include/protocols/tcp.hpp:120-120 | every k-byte string is the encoding of exactly the value it decodes to |
| Bytes.EncodeDigits | include/protocols/tcp.hpp:97-97 | byte i of the k bytes of n is n / 256^(k-1-i) mod 256: the most significant one first |
| Bytes.SizeOnWire | include/protocols/tcp.hpp:97-97 | the eight bytes of a header, one by one |
| Binary32.RoundIsNearest | include/protocols/shm_buffer.hpp:180-180 | the modelled conversion gives a representable value, and no representable value is nearer |
| Binary32.TiesToEven | include/protocols/shm_buffer.hpp:180-180 | when another representable value is equally near, the result is the even one |
| Binary32.ChunkCountsAgree | include/protocols/shm_buffer.hpp:139-180 | for every size up to 2^46 the reader's count is the writer's, or one less exactly when the rounding swallows the last chunk |
| Binary32.CountsUpTo2To24 | include/protocols/shm_buffer.hpp:139-180 | the counts agree for all sizes up to 2^24, and differ at 2^24 + 1 |
| ShmRuns.EveryRunIsExact | include/protocols/shm_buffer.hpp:119-216 | in every interleaving of locked steps, what get returned is a byte-exact prefix of what was put, every size announced is that of the next message, and the end is seen only after all messages |
| ShmRuns.AnnouncedIsDelivered | include/protocols/shm_buffer.hpp:199-216 | a size returned by getsize is the length of the message the next get hands over |
| ShmRuns.GetSizeAnswers | include/protocols/shm_buffer.hpp:199-216 | getsize answers whenever the slot is full and no get is under way, with the next message's size, or 0 after the last |
| ShmRuns.NeverStuck | include/protocols/shm_buffer.hpp:125-196 | from every reachable state, any schedule with enough turns for both sides delivers everything and ends |
| ShmRuns.ExactIffCountable | include/protocols/shm_buffer.hpp:180-195 | every run delivers exactly if and only if no message has its last chunk swallowed |
| ShmRuns.UpTo16MiBIsCountable | include/protocols/shm_buffer.hpp:180-180 | messages of at most 2^24 bytes satisfy that condition |
| ShmRuns.DrivenToTruncation | include/protocols/shm_buffer.hpp:181-195 | otherwise some interleaving reaches the first miscounted message and hands it over without its last chunk |
| ShmBuffer.Connection.PutPass | include/protocols/shm_buffer.hpp:125-151 | the in-place section of put is the machine's writer step |
| ShmBuffer.Connection.GetPass | include/protocols/shm_buffer.hpp:164-193 | the in-place section of get is the machine's reader step |
| ShmBuffer.Connection.SizePass | include/protocols/shm_buffer.hpp:199-216 | getsize reports the size in a full slot and takes nothing |
| ShmBuffer.Connection.Interleave | include/protocols/shm_buffer.hpp:119-216 | any interleaving of the in-place sections is a run of the machine |
| Framing.ParseFrames | include/protocols/tcp.hpp:91-107 | a receiver that parses the headers and payloads of any list of payloads followed by EOS gets back exactly that list |
| Framing.ParsePrefix | include/protocols/tcp.hpp:91-133 | whole frames parse to their payloads whatever follows them |
| Framing.ParseStops | include/protocols/tcp.hpp:110-133 | nothing is made of a header cut short, of EOS and of a payload cut short, and of nothing else |
| Framing.EmptyPayloadEndsStream | include/protocols/tcp.hpp:91-107 | after an empty payload the receiver sees nothing more |
| Framing.FrameOnWire | include/protocols/tcp.hpp:96-107 | a frame is the payload's length in eight bytes, the most significant first, and the payload |
| Framing.SizeFromWire | include/protocols/tcp.hpp:110-122 | reading back, any eight bytes give the number they write, the most significant first |
| Tcp.HandleTCP.WriteN | include/protocols/tcp.hpp:58-71 | whatever is written per call, a healthy stream carries the whole buffer and a failing one a prefix of it |
| Tcp.HandleTCP.SkipFull | include/protocols/tcp.hpp:78-79 | skipping vectors that are completely written leaves the same bytes to write |
| Tcp.HandleTCP.WriteVN | include/protocols/tcp.hpp:73-85 | whatever the short writes, success means that exactly the concatenation was written, and failure a prefix of it |
| Tcp.HandleTCP.ReadN | include/protocols/tcp.hpp:29-42 | whatever the short reads, the buffer gets the next n bytes of the stream, or all that is left of it |
| Tcp.HandleTCP.SendEOS | include/protocols/tcp.hpp:91-94 | EOS is eight zero bytes |
| Tcp.HandleTCP.Send | include/protocols/tcp.hpp:96-107 | one frame goes out: the length in eight big-endian bytes, and the payload |
| Tcp.HandleTCP.Probe | include/protocols/tcp.hpp:110-122 | a complete header of eight big-endian bytes yields its size and leaves the payload next; a failed or empty read takes nothing |
| Tcp.HandleTCP.Receive | include/protocols/tcp.hpp:131-133 | reads exactly the bytes asked for, if they come |
| Tcp.SendAll | include/protocols/tcp.hpp:91-107 | a list of messages and EOS go out as exactly their frames |
| Tcp.ReceiveAll | include/protocols/tcp.hpp:110-133 | blocking probes and receives give exactly the messages that the stream parses to |
| Tcp.Transfer | include/protocols/tcp.hpp:29-133 | both sides together, under any short writes and reads: the list received is the list sent |
| HandleUsers.Handle.Close | include/handle.hpp:136-150 | EOS goes out on the first close of the write side only, and the descriptor goes when both sides are closed |
| HandleUsers.Handle.Drain | include/handle.hpp:174-195 | whether or not a header was cached, all pending messages are discarded up to EOS |
| HandleUsers.Handle.SetAsClosed | include/handle.hpp:166-201 | both sides end closed, one EOS has been sent in all, and when blocking the peer's stream has been read to its end |
| HandleUsers.DrainRuns | include/handle.hpp:176-194 | on any connection the loop throws one message away a pass and then does for ever what the end of the stream decides |
| HandleUsers.DrainEndsUnlessPeerVanishes | include/handle.hpp:172-199 | it ends if and only if EOS comes or a read fails, and it leaves the read side closed if and only if EOS came |
| HandleUsers.HandleUser.Probe | include/handleUser.hpp:80-128 | each answer against the messages still to come: size of the next one, nothing yet, or end |
| HandleUsers.HandleUser.Receive | include/handleUser.hpp:130-158 | a large enough buffer gets the next message whole, a small one ENOMEM with nothing lost, after EOS zero |
| HandleUsers.UseWrapper | include/handleUser.hpp:80-158 | any sequence of calls on a readable wrapper gets replies that Explains allows |
| HandleUsers.ReceivedIsPrefix | include/handleUser.hpp:130-158 | what such a sequence of replies hands over is a prefix of what the peer sent |
| HandleUsers.RepliesAreExact | include/handleUser.hpp:80-158 | every reply is about the first message not yet handed over, and after the first end all replies are ends |
| HandleUsers.EndIsForever | include/handleUser.hpp:82-95 | once the stream is over every reply is the end |
| HalfClose.HalfCloseIsSafe | include/handle.hpp:136-201 | a run without empty payloads has, at both ends, at most one EOS with nothing after it, and a descriptor closed at most once, exactly when its end has sent EOS and read the peer's and all the peer ever sends, if and only if no end quits before reading its peer's EOS |
| HalfClose.QuitLosesIffMessageToCome | include/handle.hpp:166-201 | in a run without empty payloads an end loses a message if and only if it quits, still reading, while its peer has one on the wire or still to send |
| HalfClose.QuitLosesMessage | include/protocols/tcp.hpp:399-404 | a non-blocking shutdown with a message unread closes the descriptor |
| HalfClose.HandshakeCompletes | include/protocols/tcp.hpp:340-385 | once both ends close and read on, both descriptors are closed once and nothing is unread, exactly after the runs in which no end quit too early |
| HalfClose.NotifyCloseExact | include/protocols/tcp.hpp:340-385 | the descriptor goes when its write side is closed and its read side is, now or before |
| HalfClose.SendSafeIffNotEmpty | include/handleUser.hpp:65-78 | a send keeps the invariant if and only if its payload is not empty |
| HalfClose.EmptySendLosesMessage | include/handleUser.hpp:65-78 | after an empty send the peer may close with a message unread |
| ConnTcps.ConnTcp.Listen | include/protocols/tcp.hpp:241-249 | only the listening socket is watched afterwards |
| ConnTcps.ConnTcp.NotifyYield | include/protocols/tcp.hpp:388-397 | adds the descriptor unless the handle is closed, keeping fdmax the greatest watched one |
| ConnTcps.ConnTcp.LowerMax | include/protocols/tcp.hpp:303-312 | the downward search restores fdmax, or -1 when nothing is watched |
| ConnTcps.ConnTcp.NotifyClose | include/protocols/tcp.hpp:340-385 | what it does to the set, the table and the descriptor for each combination of sides, keeping fdmax right |
| ConnTcps.ConnTcp.Visit | include/protocols/tcp.hpp:279-320 | one ready descriptor: accepted and queued as a new connection, or removed from the set and its handle queued as readable |
| ConnTcps.ConnTcp.Update | include/protocols/tcp.hpp:254-322 | although fdmax shrinks on the way, the scan visits every ready descriptor exactly once and removes exactly the ready connections; it queues, in ascending order, the handle of each connection it got to as readable and the accepted one as new, each once and nothing else; a failed accept cuts it short |
| ConnTcps.ScanNext | include/protocols/tcp.hpp:278-320 | visiting one more descriptor extends an exact scan |
| ConnTcps.EventsAreQueued | include/protocols/tcp.hpp:279-316 | what a scan queues, stated of the descriptors it got to |
| SelectRuns.ScanIsExact | include/protocols/tcp.hpp:278-397 | with other threads yielding, closing and connecting between the visits, and accept giving any free descriptor: only ready descriptors, none twice, at the end all but those closed before their turn; the handle queued is the one reported exactly when the descriptor was not reused; a descriptor no one yielded is watched exactly if it was and has been neither closed nor visited |
| SelectRuns.ScanEnds | include/protocols/tcp.hpp:278-278 | whatever the others do, the scan ends within the range of the ready descriptors |
| SelectRuns.VisitIsClassVisit | include/protocols/tcp.hpp:279-320 | a visit of the step-wise scan does to set, table and queue what the in-place one does |
| SelectRuns.UndisturbedIsUpdate | include/protocols/tcp.hpp:278-320 | with no other thread in between, the step-wise scan is the scan of `Update`, after any number of steps |
| Ownership.WatchedIsUntouched | include/handleUser.hpp:80-128 | no disciplined call but finalize closes the read side of a watched handle, and only update takes it out of the select set |
| Polling.CallFollows | include/handle.hpp:131-150 | each call of a user does to the connection table, the open descriptors and the select set exactly what its notify_yield or notify_close does; a descriptor goes exactly when both sides are closed |
| Polling.StepKeepsInv | include/protocols/tcp.hpp:254-397 | listening, select, every step of a scan and every disciplined call keep handles, descriptors, table and set in agreement |
| Polling.EveryScanIsExact | include/protocols/tcp.hpp:254-397 | in every disciplined run, with descriptors reused at once: every scan visits each reported descriptor exactly once, unless accept fails, and queues its own handle; the select set holds exactly the descriptors of the handles that no wrapper reads, and the table exactly those of the handles open for reading |
| Polling.TurnHandsOut | include/manager.hpp:149-170 | a step of the scan gives a ready connection, or a user's new one, one readable wrapper more, and a team's connection none |
| Polling.SecondYieldMixesUp | include/handleUser.hpp:44-48 | one yield without the right to read, and a scan may queue as readable a new connection that has a reader of its own |
| Ownership.OwnershipIsSafe | include/handle.hpp:106-150 | in every disciplined run the counter is the number of live wrappers; a handle is destroyed at most once, exactly when both sides are closed and no wrapper is left, and is then in no table or set; it is in the table while its read side is open, and then it is watched or has exactly one readable wrapper, never both |
| Ownership.StepKeepsInv | include/handleUser.hpp:18-48 | creation, move, yield, close, destruction and update keep this |
| Ownership.SidesExact | include/handle.hpp:136-150 | which operations close which side of a handle, each of them always and no other ever: reading EOS closes the read side only, a user's close the write side only |
| Ownership.SidesOverRun | include/handleUser.hpp:99-126 | over a run a side ends closed if and only if some such operation was made on the handle |
| Ownership.WrappersExact | include/handleUser.hpp:18-48 | which operations change a wrapper: after a yield, EOS or an end of stream it may not read, after a reset it still may; a move leaves an empty one behind |
| Ownership.DisciplineIsExact | include/handleUser.hpp:25-48 | a step keeps the invariant if and only if the caller respects the three guards |
| Ownership.BadYield | include/handleUser.hpp:44-48 | a yield without the right to read breaks it |
| Ownership.BadMove | include/handleUser.hpp:25-35 | so does assigning over a wrapper in use |
| Ownership.BadListen | include/protocols/tcp.hpp:241-249 | so does listening while something is watched |
| Links.Link.ProbeHandle | include/collectives/collectiveImpl.hpp:36-74 | the next header, cached, or end of stream |
| Links.Link.ReceiveFromHandle | include/collectives/collectiveImpl.hpp:76-99 | takes the next message if it fits, reports -1 and keeps it if it does not, 0 at the end |
| Links.EndIsFinal | include/collectives/collectiveImpl.hpp:82-90 | an ended link reports its end for ever |
| FanInProbes.EndsIffLive | include/collectives/collectiveImpl.hpp:210-239 | the blocking loop ends if and only if some participant will deliver or break, or all will say EOS; the iterator is in range throughout |
| FanInProbes.LoopUnfolds | include/collectives/collectiveImpl.hpp:210-239 | each pass shrinks the measure: participants, then lags, then the way to the next active one |
| FanInProbes.PassesFaithful | include/collectives/collectiveImpl.hpp:210-239 | a probe loses no message, drops a participant only at its EOS, and reports the index and size of a real next message |
| FanInProbes.PassesClose | include/collectives/collectiveImpl.hpp:216-221 | a probe closes the handles of the participants it drops, each once, and no other |
| FanInProbes.NothingYetIsHonest | include/collectives/collectiveImpl.hpp:212-239 | a non-blocking probe that answers "nothing yet" has found nothing on any participant, but for those that stood behind one it dropped |
| FanInProbes.JumpsTheNext | include/collectives/collectiveImpl.hpp:219-237 | such a one may have a message |
| FanInProbes.FanInRoot.OnePass | include/collectives/collectiveImpl.hpp:212-239 | the in-place loop body is one pass of the machine |
| FanInProbes.FanInRoot.Probe | include/collectives/collectiveImpl.hpp:208-249 | the in-place probe computes the whole loop, and the group's EOS when no participant is left; it closes exactly the participants it drops, each at its EOS |
| FanInProbes.FanInRoot.Receive | include/collectives/collectiveImpl.hpp:260-272 | hands over the message whose header was probed |
| FanInRuns.EveryRunInterleaves | include/collectives/collectiveImpl.hpp:208-272 | in every run the received stream is an interleaving of the senders' streams, each in order and each message once, and the group's EOS comes after everything |
| FanInRuns.ClosedOnceAtEos | include/collectives/collectiveImpl.hpp:208-272 | in every run a sender's handle is closed at most once, exactly when it is dropped, with all its messages received and its EOS there; at the group's EOS all are |
| FanInRuns.ReceiveMatchesProbe | include/collectives/collectiveImpl.hpp:260-272 | a receive after a probe returns the probed sender's next message, of the size reported |
| FanInRuns.ProbeAnswers | include/collectives/collectiveImpl.hpp:208-249 | a header, the group's EOS once no participant is left, or the end of the stream if a sender's has broken off; a blocking probe that returns answers one of these |
| FanInRuns.HangsIffNeverEnds | include/collectives/collectiveImpl.hpp:210-239 | a blocking probe hangs exactly when the loop never ends |
| FanInRuns.EndIsFinal | include/handleUser.hpp:80-95 | after the end every call leaves all as it is |
| FanInRuns.FanInCompletes | include/collectives/collectiveImpl.hpp:208-272 | when every sender closes, enough receives reach the group's EOS |
| Farm.DealtRoundRobin | include/collectives/collectiveImpl.hpp:313-322 | message k goes to participant k mod n, as its message number k div n, and nothing else goes anywhere |
| Farm.SharesBalanced | include/collectives/collectiveImpl.hpp:313-322 | two shares differ by at most one |
| Farm.Rebuilds | include/collectives/collectiveImpl.hpp:313-322 | reading the shares in turn rebuilds the original stream |
| Farm.FarmConserves | include/collectives/collectiveImpl.hpp:208-338 | with workers that answer one for one, what the fan-in has collected at the group's EOS is exactly the image of what the fan-out sent |
| Farm.FanOutRoot.SendOne | include/collectives/collectiveImpl.hpp:313-322 | a send that goes out is the machine's step; one that fails passes the turn on without a message |
| Gather.GatherRound | include/collectives/collectiveImpl.hpp:363-398 | a round leaves every rank's block at its offset and nothing else in the buffer, whatever the order of participants |
| Gather.GatherRounds | include/collectives/collectiveImpl.hpp:363-398 | so does every one of any number of rounds, the senders being free to run ahead |
| Gather.FirstFailureStops | include/collectives/collectiveImpl.hpp:364-377 | receive succeeds when every participant delivers, and otherwise returns 0 for an end of stream and -1 for a message that is too long, at the first that fails, with later participants untouched |
| Gather.TurnReturns | include/collectives/collectiveImpl.hpp:367-374 | 0 if the participant's stream is over, -1 if its rank or block is too long, and positive otherwise |
| Gather.TurnDeliversIffFits | include/collectives/collectiveImpl.hpp:367-374 | a participant's turn delivers if and only if its block fits the size given: then exactly the block is placed and the rest of its traffic is next, otherwise -1, an unchanged buffer and the block next, its rank gone |
| Gather.AfterRefusal | include/collectives/collectiveImpl.hpp:367-374 | the next call takes the refused block for a rank: longer than an int, refused again whatever the size; otherwise taken, completed by what remote_rank held, with the message after it as block |
| Gather.RetryCanDeliverIffNotLonger | include/collectives/collectiveImpl.hpp:367-374 | after a refusal some later turn can deliver if and only if the block is no longer than an int |
| Gather.RankTakenForBlock | include/collectives/collectiveImpl.hpp:367-374 | for every such block: a retry with room for an int succeeds, with the sender's next rank in a block's place |
| Gather.GatherRoot.Receive | include/collectives/collectiveImpl.hpp:363-378 | the in-place loop computes the modelled receive, failures included |
| Gather.GatherRoot.SendRecvRoot | include/collectives/collectiveImpl.hpp:390-393 | own block first, then receive |
| Gather.SendToRoot | include/collectives/collectiveImpl.hpp:380-388 | rank, then block |
| Blocks.AllPlaced | include/collectives/collectiveImpl.hpp:392-393 | blocks copied to their ranks' slots in any order give the blocks in rank order |
| Exchange.EveryRunAgrees | include/collectives/uccImpl.hpp:35-68 | under every interleaving of root and members, over any number of rounds, no receive fails or leaves its buffer, and each process has so far obtained the same buffers |
| Exchange.SomeoneCan | include/collectives/uccImpl.hpp:41-64 | no reachable state is a deadlock |
| Exchange.ExchangeCompletes | include/collectives/uccImpl.hpp:35-68 | from every reachable state all rounds end as long as every process keeps getting turns, and then all hold the same buffers |
| Exchange.BlocksByRank | include/collectives/uccImpl.hpp:46-49 | entry p of that buffer is the block of the process of rank p, whatever the order of the root's handles |
| Exchange.RootRankFirst | include/collectives/mpiImpl.hpp:35-42 | the MPI exchange gives every process the root's rank first and then those of its handles in order |
| Exchange.StepKeepsInv | include/collectives/mpiImpl.hpp:31-60 | every send and receive of either exchange keeps the invariant |
| ExchangeCalls.OobRoot | include/collectives/uccImpl.hpp:41-53 | the root's loops fill the buffer in place with the round's result and send each handle the root's rank and that result |
| ExchangeCalls.OobMember | include/collectives/uccImpl.hpp:55-64 | a member answers with rank and block and ends with the root's rank and the result |
| ExchangeCalls.MpiRoot | include/collectives/mpiImpl.hpp:31-48 | the same for the MPI root |
| ExchangeCalls.MpiMember | include/collectives/mpiImpl.hpp:51-60 | a member gets the list and the number of its entries |
| Teams.SplitJoin | include/manager.hpp:617-623 | a list of names survives the separators if and only if its last name is not empty, and otherwise loses that name |
| Teams.RanksNumberTheTeam | include/manager.hpp:623-626 | the ranks the listed processes take are a permutation of 0 .. size-1 if and only if the names are distinct |
| Teams.EveryoneAgrees | include/manager.hpp:616-677 | all processes reach the same verdict, size and implementation, and a listed one the rank of its position |
| Teams.ChoiceIsShared | include/manager.hpp:636-677 | the implementation chosen is one that every member offers, MPI before UCC, and GENERIC only if someone lacks each |
| Teams.VerdictExact | include/manager.hpp:631-677 | exactly when a team is planned, with which implementation, and exactly when each of the refusals is given |
| Teams.OfferedByAll | include/manager.hpp:636-643 | a protocol counts as offered if and only if every member is configured with it |
| Teams.RankFinds | include/manager.hpp:623-626 | a listed process takes its last position, an unlisted one 0 |
| Teams.LookupPollutes | include/manager.hpp:631-651 | once the lookup has entered an unknown root, a team that lists this name is planned instead of refused, if and only if its own root is listed and can listen |
| Teams.UnlistedCollides | include/manager.hpp:619-626 | a process that is not listed has the rank of the first |
| Teams.Planner.GetLine | include/manager.hpp:623-623 | one step of splitting the string |
| Teams.Planner.Survey | include/manager.hpp:616-646 | the loop computes size, rank and the three flags, or finds a missing component |
| Teams.Planner.CreateTeam | include/manager.hpp:606-677 | the verdict, the remembered team id, and the entry that looking up an unknown root leaves behind |
| Handshakes.GreetingUnderstood | include/manager.hpp:84-128 | the handshake classifies what connect and createTeam send and takes not a byte more; an empty or oversize team id is refused, and the group joined is the one named exactly when the id holds no NUL |
| Handshakes.HangingUpEndsTheWait | include/manager.hpp:84-128 | a peer that hangs up makes no one wait, and once it has said enough it does not matter whether it does |
| Handshakes.FlagDecides | include/manager.hpp:84-98 | what the bytes up to the flag make of a connection: dropped, a user's, a team's, or still waited for |
| Handshakes.NameDecides | include/manager.hpp:100-127 | and those after it: the group joined is the one named, up to a NUL, of 1 to 1048576 bytes |
| Handshakes.CStringIs | include/manager.hpp:123-126 | the name of a group is all that comes before the first NUL |
| Managers.EveryConnectionGoesHome | include/manager.hpp:149-170 | in every run a member's connection is only ever in its team's group, in order of arrival, and every other one only in the ready queue; a root obtains size - 1 of them or none |
| Managers.FormsIffFound | include/manager.hpp:680-720 | createTeam returns at the root if and only if it looks when exactly size - 1 connections have announced the team |
| Managers.RootGetsItsTeam | include/manager.hpp:680-720 | with size - 1 announcements in any order, the root's handles are exactly those |
| Managers.TeamForms | include/manager.hpp:680-751 | from the bytes that the members' createTeam sends to the root's handles: size - 1 members calling in any order, among any other events, become exactly the root's handle list |
| Managers.TeamOfOneNeverForms | include/manager.hpp:709-713 | a team of one is never obtained |
| Managers.SilenceStopsArrivals | include/manager.hpp:84-128 | after a silent new connection nothing more is taken in |
| Contexts.OneReaderPerContext | include/manager.hpp:182-205 | while unreadable wrappers do not yield it, a context has exactly one reader - polling thread, ready queue or one wrapper - if its read side is open and none otherwise, and never two readable wrappers |
| Contexts.CreateExact | include/manager.hpp:763-767 | a new context is open if it can receive, and the user has a wrapper of it in either case |
| Contexts.GetNextExact | include/manager.hpp:432-440 | a context taken from the queue has one wrapper more and one entry less |
| Contexts.PollExact | include/manager.hpp:192-202 | a context that the polling thread has, and for which poll answers yes, moves to the queue |
| Contexts.YieldExact | include/manager.hpp:810-819 | a yield takes the reading wrapper away and gives the polling thread the context if it is open |
| Contexts.EndExact | include/handleUser.hpp:99-126 | EOS closes the read side and makes the wrapper unreadable; a lost transport only closes it |
| Contexts.OpenOverRun | include/collectives/collectiveContext.hpp:40-48 | over a run a context is open exactly if it was made able to receive and its stream has not been found over since |
| Contexts.ClosedStaysUnread | include/manager.hpp:810-819 | a context that cannot receive or whose stream has ended has no reader and never gets one, whoever yields |
| Contexts.YieldNeedsAHolder | include/manager.hpp:810-819 | a yield keeps this if and only if it comes through the readable wrapper, the read side is closed, or the polling thread has the context anyway; otherwise there are two readers |
| Managers.CollectiveContext.Yield | include/manager.hpp:810-819 | releases the team only if the context can receive and its read side is open |
| Managers.CollectiveContext.EndOfStream | include/handleUser.hpp:99-126 | the read side closes; at EOS the wrapper becomes unreadable, at ECONNRESET it does not |
| Managers.Manager.NewContext | include/manager.hpp:763-767 | the end of createTeam: the context is known, not managed, and the user has a readable wrapper |
| Handshakes.ConnectionHandshake | include/manager.hpp:84-128 | on any stream, short ones included, reads what the handshake takes and classifies the connection |
| Managers.Manager.AddinQ | include/manager.hpp:149-170 | puts the connection in its group, in the ready queue or nowhere |
| Managers.Manager.TakeTeam | include/manager.hpp:709-720 | the waiting condition and the hand-over of the group |
| Contexts.PassIsExact | include/manager.hpp:192-202 | a pass over the contexts hands out, once, exactly those of the polling thread's for which poll answers yes |
| Contexts.HandedOutHasSomething | include/protocols/tcp.hpp:124-129 | a pass hands out only contexts with something to read if and only if it meets none that is merely silent on TCP, and all of those if and only if it meets none whose messages are on shared memory only with every TCP participant at its end |
| Managers.PeekAny | include/collectives/collectiveImpl.hpp:113-122 | true if and only if some participant's peek is |
| Managers.Manager.PollAll | include/manager.hpp:192-202 | the in-place pass |
| Managers.Manager.GetNextReady | include/manager.hpp:432-440 | the oldest entry, if there is one |
| Managers.Manager.ReleaseTeam | include/manager.hpp:261-266 | marks a known context for the polling thread |
| Wakeups.WakeupSafeIffAlone | include/manager.hpp:155-163 | the wake-up of an arrival strands no root, whichever is picked, if and only if it completes no waiting root's team or that root waits alone |
| Wakeups.LookOrWait | include/manager.hpp:709-720 | a root that looks has its team exactly if it had, or the others are there; otherwise it waits |
| Wakeups.OneRootIsNeverStranded | include/manager.hpp:709-713 | while at most one root waits at a time, no root sleeps through its team's completion |
| Bimap.LookupsInverse | proxy/bimap.hpp:54-65 | the two lookups undo each other on everything present |
| Bimap.HistoryKeepsInverse | proxy/bimap.hpp:92-148 | after any history of fresh inserts and erases of present entries the sets have equal size and this still holds |
| Bimap.AgreesIffIncreasing | proxy/bimap.hpp:135-148 | the lookups answer as a plain map does if and only if the pairs are jointly increasing |
| Bimap.MapIffIncreasing | proxy/bimap.hpp:92-148 | over a whole history the bimap behaves as a map if and only if the live pairs stay jointly increasing |
| Bimap.CrossedPairs | proxy/bimap.hpp:102-141 | two pairs in crossed order are exchanged |
| Bimap.BimapObject.InsertPair | proxy/bimap.hpp:102-106 | the in-place insert |
| Bimap.BimapObject.EraseByKey | proxy/bimap.hpp:107-115 | the in-place erase by key removes the value at the key's position |
| Bimap.BimapObject.EraseByValue | proxy/bimap.hpp:116-124 | and the other way round |

## Left out

- Binary32.ChunkCountsAgree: stops at 2^46 bytes, beyond which the counts can differ by more than one chunk.
- Ownership.OwnershipIsSafe: handles and wrappers are entries of maps under fresh names, not objects; that freed
  memory is not reused under the same address is not part of this model.
- HandleUsers.HandleUser.Probe: does not model the ECONNRESET branch, which closes the handle and leaves isReadable set,
  because the modelled connection does not fail.
- HandleUsers.HandleUser.Receive: an empty wrapper, which the code dereferences before it looks, is not a receiver here.
- HandleUsers.DrainEndsUnlessPeerVanishes: a header cut short, for which the code takes whatever its variable held, is
  not modelled; a payload cut short counts as discarded.
- Links.Link.ProbeHandle: the blocking call on a link that does not fail, which is all that gather and the exchanges use.
- ConnTcps.ConnTcp.Update: one scan on its own; `SelectRuns.ScanIsExact` and `Polling.EveryScanIsExact` are the
  statements with other threads.
- Polling.EveryScanIsExact: a process listens while no scan is under way, and finalize, which ends the polling thread
  first, is not part of these runs.
- Gather.RankTakenForBlock: an int is laid out most significant byte first, and a rank with the sign bit set, which
  the code takes for negative, counts as a large one that no buffer has room for.
- Contexts.HandedOutHasSomething: TCP and shared memory participants; the peeks of the opaque transports are not part
  of this model.
- Managers.SilenceStopsArrivals: the thread that waits also holds the lock of the select set, so users' yields and
  closes of TCP handles wait too; the locks themselves are not modelled.
- Exchange.EveryRunAgrees: entries travel and are stored in one byte order for all processes, as the code assumes.
- `readvn`: nothing calls it.
- `tryget` and `trygetsize`: the same locked sections as `get` and `getsize`, entered once instead of in a loop.
- `HandleSHM`: forwards to its two buffers; `ConnSHM::update`: its readiness test and its managed flag do not fit
  `peek`, so ready-once is not stated for it.
- `BroadcastGeneric`, and the life of a handle that `FanOutGeneric::probe` goes on using after closing it.
- Fairness of fan-in and completeness of its non-blocking probe: the loop starts over with the first participant.
- `CollectiveContext`: permission checks and the selection in `createContext` and `setImplementation` follow from
  reading them.
- Injectivity of the team id: participants, root and type are concatenated without a separator.
- Allocation, sockets, `select`, `mmap`, timeouts, retries, name resolution, threads' own locks, signals, logging, the
  JSON configuration and the proxy's main loop; MPI, UCX, UCC and MQTT calls.
