# Jozabad: call switching, flow control and framing

Jozabad is a broker for switched calls in the manner of X.25. It exists twice in its repository: as a
broker whose channel is one object with two sides (`src/`), and as a server whose calls link two channel
objects, each with its own state, timer and sequence numbers (`application10/`). This project models the
protocol core of both, the wire format and the receive loop of the second, its checksum, and the index sort
of the first.

`dafny verify dfyconfig.toml` checks everything; every statement below is proved of the model.

| files | what they hold |
|---|---|
| `Sequence` | cyclic sequence numbers and what they say about packet counts; facility negotiation |
| `BrokerTables`, `Broker`, `BrokerRuns`, `BrokerWindows`, `BrokerEffects` | the broker channel: action tables, the channel class on numbers modulo nine, the same channel on unbounded counts, whole runs, the windows for which numbers and counts agree, and what each message does, kind by kind |
| `LinkedCell`, `LinkedEffects` | the handlers of the linked channel as functions on a channel and its peer, and what they do to the fields of both, state by state |
| `LinkedChannel` | the same handlers as methods of heap objects that point at each other, proved equal to those functions |
| `LinkedNet`, `LinkedPairs`, `LinkedStale`, `LinkedTimers` | runs of all channels of all clients: invariants, pairing, stale links, timers |
| `LinkedFlow`, `LinkedScripts` | the data phase of two linked channels: what the cyclic tests say about counts, runs in step, runs built message by message |
| `LinkedWindows`, `LinkedAcks`, `LinkedReset` | where the data phase goes wrong: the misdirected window check, acknowledgements out of range, the reset of both ends |
| `CrcWord`, `CrcTable`, `Crc` | the checksum against long division of bit strings |
| `Codec`, `CodecProofs`, `CodecLayout`, `CodecMachine` | the frame format, its round trip, where each byte is, and the printer and parser with their cursors |
| `Reassembly`, `ReceiveLoop` | cutting reads into messages: the specification, and the buffer with its memmove |
| `StringOrder`, `IndexSort`, `QuickSort` | strcmp, insertion index sort, quick index sort |

How the parts fit. A method or a handler that changes state is proved against a function on values, and the
theorems about runs are about those functions. `Broker.Channel.Dispatch` does `Broker.CyclicStep` to numbers modulo
nine, for every window the poll loop lets through, and `Broker.CyclicRefines` ties that to `Broker.Step` on unbounded
counts. The methods of `LinkedChannel.Channel` do to two heap objects what
`LinkedCell.Handle`, `Receive`, `Restart` and `CheckTimer` do to two values, the methods named `...In` say so of a
whole set of objects, and `LinkedNet.Step` applies those functions to any number of channels.
The functions themselves are held to statements that do not mention them: fields after a message (`LinkedEffects`,
`BrokerEffects`), bytes of a frame (`CodecLayout`), the remainder of a division (`Crc`).
`ReceiveLoop.Connection.InputAvailable` is one `Reassembly.Feed`. A failed assertion of the source is an `Abort`
outcome and ends the run.

Several things the code or its comments suggest are not so. Each has its exact condition here.

- A called channel can be without a peer. After a clear by its client a channel keeps pointing at its old peer
  (P6), and a later punishment cuts whatever call that peer is in by then. `LinkedStale.StaleCollisionAborts`
  gives nine events that end in the assertion of call acceptance; `LinkedStale.StepKeepsStrict` says that a call
  collision against an idle peer is the only step that leaves a channel without the peer it needs.
- The window assertion for arriving data (application10/channel.c:978) looks at the acknowledgements of the other
  direction. It fails exactly on an acceptable packet whose number is not in the window from what its own sender
  has acknowledged (`LinkedFlow.DataAbortsIff`), so with windows from one to seven no run gets either side more than
  a window beyond its own acknowledgements (`LinkedWindows.NeverAheadOfOwnAcks`). Legal messages can make it fail
  exactly for windows from two to seven (`LinkedWindows.PeerWindowCanFailIff`); with a window of one nothing flows
  after the first packet of each side (`LinkedWindows.WindowOneStalls`).
- The linked channel negotiates windows from zero to eight, and zero and eight never close. The assertions on
  acknowledgements at 951 and 962 can be made to fail by legal messages exactly for those two
  (`LinkedAcks.LegalAcksCanFailIff`).
- Nor are acknowledgements checked against SEQ_MAX there. The tests stay exact exactly for numbers at most SEQ_MAX
  and multiples of it (`LinkedFlow.ExactIffReadable`, `InStepNeedsLegalAck`). With one number above SEQ_MAX allowed,
  the same assertions can fail exactly if the window is zero or eight, or it is at least two and the number's
  remainder and the window make SEQ_MAX (`LinkedAcks.AckCheckCanFailIff`).
- After the server has reset both ends, what one client sends before the other confirms is lost unnoticed. The
  ends are then in step exactly when at most one packet was lost; the next packet restores the step, and when a
  whole window was lost there is no next packet (`LinkedReset.SecondConfirmationStartsDataPhase`,
  `NextPacketRestores`, `FullWindowStalls`, `ResetOutOfStep`).
- The broker's window test admits one packet more than was negotiated when the window wraps
  (`Broker.WindowTestIsExact`). The poll loop lets windows of zero and eight through as well, and no run overruns the
  numbers exactly for the others (`BrokerWindows.NumbersSufficeIff`): at zero the test refuses nothing, at eight
  nothing once a packet has been acknowledged (`WindowClosesIff`).
- The callee's action table has fifteen entries a row for sixteen message kinds, so a DIRECTORY message from
  the callee aborts the broker, and nothing else does (`BrokerRuns.RunsAbortOnlyOnDirectory`, `BrokerWindows.CyclicRunsAbortIff`).
- `qisort` does not sort. It gives `iisort`, which leaves out its right end, an inclusive right end, so the last
  entry of each short block stays where it is (`QuickSort.QuickSort`, `ShortSortedIff`, `TwoStringsStay`). An array
  in order stays so if no string is repeated; with repetitions partitioning can lose the order
  (`QuickSort.TiesLoseOrder`).
- A frame announced longer than the receive buffer fills it, and the space check before the next read fails; a length
  that wraps around in 32 bits fails another assertion. `Reassembly.FullBufferIff` and `AbortedIff` say for arbitrary
  bytes when.

## Model

| member | source | states |
|---|---|---|
| `Sequence.Negotiable` | application10/seq.c:61-79 | a facility request is fair iff it lies between the current value and the protocol's value; packet and throughput negotiation have the same shape |
| `Sequence.PacketBytesTable` | application10/packet.c:30-44 | the largest packet of each facility, 16 to 4096 bytes |
| `Sequence.NextNamedIsLeast` | src/seq.c:38-47 | the count a number names is the least count from a given one on with that remainder |
| `Sequence.InRangeIsExact` | src/seq.c:38-47 | on a span shorter than the modulus, the cyclic comparison holds of a number iff the next count it names is in the span |
| `Broker.TableFacts` | src/action.c:57-414 | which states admit data, acceptance, collision and clears; outside three states that runs never reach or have left, the only abort entry is the callee's DIRECTORY |
| `Broker.WindowTestIsExact` | src/channel.c:225 | the window test, with its end reduced modulo eight, accepts iff fewer than window (or window + 1 when it wraps) packets are unacknowledged; never more than eight |
| `Broker.TestsAreExact` | src/channel.c:210-270 | every test of the data and acknowledgement handlers decides the corresponding comparison of unbounded counts |
| `Broker.Channel.constructor` | src/channel.c:53-84 | a new channel, of any window from zero to eight, is in x_call_request with all numbers zero |
| `Broker.CyclicRefines` | src/channel.c:300-430 | on the numbers of any sound call, which has a window from one to seven, a message has the effect and the replies it has on the unbounded counts |
| `Broker.Channel.Dispatch` | src/channel.c:300-430 | for every window from zero to eight, numbers, state, facilities and replies after a message are those of the step on numbers, it fails iff that aborts, and of a sound call with these numbers they are those of the unbounded step |
| `Broker.Channel.Act` | src/channel.c:321-402 | the same for one action |
| `Broker.Channel.ResetBoth` | src/channel.c:90-96 | both workers are told, the state becomes y_reset_request, counts stay |
| `Broker.Channel.ClearBoth` | src/channel.c:103-110 | both workers are told and the channel is ready |
| `Broker.Channel.DisconnectFrom` | src/channel.c:117-124 | the other worker is told and the channel is ready |
| `Broker.Channel.CallAcceptedBy` | src/channel.c:126-165 | facilities are taken over iff fair and both addresses match, otherwise one diagnostic and no change; a legal window stays legal |
| `Broker.Channel.CollisionFrom` | src/channel.c:177-181 | the callee is told of the collision and may still accept |
| `Broker.Channel.ClearRequestFrom` | src/channel.c:184-197 | accepted iff the worker gives its own cause and diagnostic; the state names the side that asked |
| `Broker.Channel.ClearConfirmationFrom` | src/channel.c:200-208 | all four numbers are zeroed and the channel is ready |
| `Broker.Channel.DataFrom` | src/channel.c:210-238 | a packet is forwarded iff it fits, is next in sequence, is in the window and acknowledges a number in range; then the sender's number moves on modulo nine and its acknowledgement is replaced |
| `Broker.Channel.AckFrom` | src/channel.c:243-270 | an acknowledgement is forwarded and stored iff its number is between the last one and the other side's next |
| `Broker.Channel.ResetRequestFrom` | src/channel.c:274-284 | a worker's reset request is passed on and changes no state |
| `Broker.Channel.ResetConfirmationFrom` | src/channel.c:289-298 | all four numbers are zeroed and the state is data transfer |
| `BrokerRuns.StepKeepsRunning` | src/channel.c:300-430 | every step keeps acknowledged <= sent <= acknowledged + window + 1 on both sides, legal facilities, and zero counts before the data phase |
| `BrokerRuns.RunsStaySound` | src/channel.c:210-298 | in every run unacknowledged packets are at most window + 1 <= 8, and y_call_request and x_reset_request are never reached |
| `BrokerRuns.AbortsOnlyOnCalleeDirectory` | src/channel.c:321-331 | a step aborts iff the message is a DIRECTORY from the callee |
| `BrokerRuns.RunsAbortOnlyOnDirectory` | src/action.c:231-414 | a run is aborted iff some event is a DIRECTORY from the callee while the channel was open |
| `BrokerRuns.NoSilentClose` | src/channel.c:98-124 | in every run that has closed or begun to, each worker has asked for it or has been sent a CLEAR_REQUEST |
| `BrokerRuns.CountsAreForwards` | src/channel.c:210-270 | in every run a side's counts are the packets forwarded and the acknowledgements reached since the last zeroing, and its acknowledgement number is the last one forwarded |
| `BrokerRuns.CountsAdvance` | src/channel.c:210-298 | between zeroings counts never retreat, a step sends at most one packet, no acknowledgement passes what was sent |
| `BrokerEffects.TablesFollowRule` | src/action.c:57-414 | the two tables, kind by kind: what each message does in its own phase, strayed from it, and misplaced, and in which states the sides differ |
| `BrokerEffects.DispatchEffect` | src/channel.c:87-430 | every message in every state and from either side: which fields change to what, and which replies with which contents go to which worker, among them the four refusals of a packet in order, its size first, and the five of an acceptance |
| `BrokerEffects.TakenIsDelivered` | src/channel.c:210-270 | in every run, with every window, the packets and acknowledgements a worker is sent are, in order and with the same q, P(R), P(S) and data, those the broker took from the other |
| `BrokerWindows.WindowClosesIff` | src/channel.c:225 | for windows from zero to eight: the window test can refuse after every acknowledgement iff the window is from one to seven; at eight it refuses nothing after 1..8, at zero nothing at all |
| `BrokerWindows.CyclicRunsRefine` | src/channel.c:300-430 | for windows from one to seven a whole run on the numbers is the run on the counts, with the same log |
| `BrokerWindows.CyclicRunsAbortIff` | src/channel.c:321-331 | with every window from zero to eight a run is aborted iff some event is a DIRECTORY from the callee while the channel was open, and y_call_request and x_reset_request are never reached |
| `BrokerWindows.AnyNumberOutstanding` | src/channel.c:210-238 | at windows zero and eight there is, for every k, a run with k packets forwarded and not acknowledged, so from nine on two of them share a number |
| `BrokerWindows.NumbersSufficeIff` | src/channel.c:210-298 | in no run from creation are more than eight packets outstanding iff the window is from one to seven |
| `LinkedCell.ReceiveKeeps` | application10/channel.c:712-947 | a server message keeps a channel's timer a function of its state and its count in bounds |
| `LinkedCell.HandleKeeps` | application10/channel.c:101-255 | so does every client message, for both ends; peers are kept where the state needs them unless it is a stale collision, and no timer or not-reached assertion fails |
| `LinkedCell.StaleCollisionBreaks` | application10/channel.c:402-417 | a stale collision always leaves a called channel without a peer |
| `LinkedCell.ExpireKeeps` | application10/channel.c:998-1088 | an expiry fails no assertion and keeps both ends well timed |
| `LinkedCell.RestartKeeps` | application10/channel.c:667-705 | a restart idles the channel, unlinks it, and keeps its former peer well timed |
| `LinkedCell.ConnectKeeps` | application10/channel.c:257-346 | placing a call links two channels in P2 and P3 with the incoming-call timer running |
| `LinkedEffects.ReceiveEffect` | application10/channel.c:712-989 | what every server message does to a channel's state, link, numbers, facilities and timer, state by state, or which assertion fails |
| `LinkedEffects.ClientMessageEffect` | application10/channel.c:101-657 | what every client message does in every state to the fields of both ends, or which assertion fails |
| `LinkedEffects.ClientClearReachesPeer` | application10/channel.c:420-436 | in every state but P6 and P7 a client that clears waits in P6 with its link, and a peer not in P6 or P7 goes to P7, loses its link and has six seconds |
| `LinkedEffects.ExpireEffect` | application10/channel.c:1034-1088 | a first reset expiry changes this end's count only and resets the other, a second clears both; a first clear expiry changes the count only, a second idles the channel; an incoming call expires at once |
| `LinkedEffects.CheckEffect` | application10/channel.c:998-1024 | nothing happens before the expiry time, then the expiry |
| `LinkedEffects.RestartEffect` | application10/channel.c:667-705 | this end is idle and unlinked without a timer, the other is cleared and unlinked |
| `LinkedEffects.ConnectEffect` | application10/channel.c:257-346 | the fields of both ends of a call just placed: P2 and P3, linked, with the requested facilities and eighteen seconds |
| `LinkedNet.StepKeepsNetOk` | application10/channel.c:101-1088 | every event of every client, timer or restart keeps: peers exist and differ, timers follow states, P1 and P7 have no peer, table keys are LCNs in 1..1024; only client messages can abort, never on a timer assertion |
| `LinkedNet.RunsKeepNetOk` | application10/channel.c:836-938 | that holds in every configuration of every run |
| `LinkedPairs.HandlePaired` | application10/channel.c:257-470 | a message on a linked pair leaves it in one of the six allowed state pairs or unlinks both ends; it can abort only on a facility or acknowledgement range or the misdirected window check |
| `LinkedPairs.StepKeepsPaired` | application10/channel.c:603-947 | every event without a client-originated clear keeps channels paired |
| `LinkedPairs.RunsStayPaired` | application10/client.c:392-483 | in every such run peer is a fixed-point-free involution, linked channels are in matching states and in their clients' tables (so none points at a removed one), and data-phase pairs agree on facilities between request and protocol value |
| `LinkedStale.StepKeepsStrict` | application10/channel.c:358-417 | a step keeps a peer for every caller, called and colliding channel iff it is not a stale collision; while it does, no peer assertion fails |
| `LinkedStale.RunsStayStrict` | application10/channel.c:836-852 | hence in every run without stale collisions |
| `LinkedStale.StaleCollisionAborts` | application10/channel.c:358-417 | a concrete run of eight events after which accepting a call fails the peer assertion |
| `LinkedTimers.ExpireCosts` | application10/channel.c:1034-1088 | an expiry lowers the potential of its channel, and of the channel and its peer together |
| `LinkedTimers.ExpireLowersTotal` | application10/channel.c:998-1024 | an expiry of any listed channel lowers the total over the list, whether its peer is listed or not |
| `LinkedTimers.AtMostSixExpiriesEach` | application10/channel.c:998-1088 | in a sound set of channels any N of them expire at most 6N times, in whatever order |
| `LinkedTimers.SweepsComeToRest` | application10/service.c:44-55 | sweeps may be as frequent as one likes, each in an order of its own: if 6N of them, the first once all timers running at the start are due, are 18 seconds apart, no timer of the N channels is running at the end |
| `LinkedTimers.SparseSweepsComeToRest` | application10/client.c:635-640 | in particular after 6N sweeps each 18 seconds after the one before |
| `LinkedTimers.RunTimersBy` | application10/channel.c:854-938 | in a run that is at time t every running timer of every channel runs out by t + 18 seconds |
| `LinkedTimers.RunsComeToRest` | application10/channel.c:998-1088 | hence from every configuration of every run, for any N channels, such as those in the tables: all their timers are stopped by sweeps of any frequency of which 6N, from 18 seconds after the last event on, are 18 seconds apart |
| `LinkedFlow.InWindowIsExact` | application10/channel.c:484-541 | a window test accepts a number iff the next count it names is in the window |
| `LinkedFlow.WindowTest` | application10/channel.c:484-541 | the sender's window test accepts iff fewer than window packets are unacknowledged |
| `LinkedFlow.AckTest` | application10/channel.c:543-599 | the acknowledgement test accepts a readable number iff it names a packet from the last acknowledged to the last sent; of two spellings of zero the later may not be a smaller multiple of SEQ_MAX |
| `LinkedFlow.AckPassesOn` | application10/channel.c:949-969 | what one end accepts as acknowledgement, the other end's assertion accepts |
| `LinkedFlow.ExactIffReadable` | application10/channel.c:543-599 | with a number held as last acknowledgement, window and acknowledgement tests are exact iff it is at most SEQ_MAX or a multiple of it |
| `LinkedFlow.DataAcceptableIsExact` | application10/channel.c:484-541 | a packet with a readable acknowledgement is accepted iff it is sized, in sequence, in the window and acknowledges a sent packet |
| `LinkedFlow.DataOutcome` | application10/channel.c:971-989 | a packet is punished, aborts on the misdirected check, or updates exactly the four fields it should |
| `LinkedFlow.DataAbortsIff` | application10/channel.c:971-989 | a packet aborts iff it is acceptable and its number is outside the window from what its sender has acknowledged |
| `LinkedFlow.StepInStep` | application10/channel.c:949-989 | an accepted message keeps both ends in step with the counts; of all assertions only the misdirected one can fail |
| `LinkedFlow.DataRunsStayInStep` | application10/channel.c:484-599 | for every interleaving of accepted messages peer_pr equals the other side's client_pr, unacknowledged packets fit the window, and the checks at 951, 962, 976 and 977 pass |
| `LinkedFlow.InStepNeedsLegalAck` | application10/channel.c:543-599 | an accepted acknowledgement leaves fields that agree with some counts and exact tests iff it is at most SEQ_MAX or a multiple of it |
| `LinkedFlow.AcceptanceStartsDataPhase` | application10/channel.c:358-400 | call acceptance, with any window from zero to eight, leaves both ends in the data phase with zero numbers and the accepted facilities |
| `LinkedFlow.AnyWindowCanBeAccepted` | application10/channel.c:358-400 | a call can be accepted with just the facilities it was placed with, zero and eight as window among them |
| `LinkedFlow.ZeroIsInStep` | application10/channel.c:349-356 | zero numbers are a start in step iff the window is from one to seven |
| `LinkedFlow.ConfirmationStartsDataPhase` | application10/channel.c:460-470 | so does confirming the other client's reset, with the facilities there were |
| `LinkedWindows.NeverAheadOfOwnAcks` | application10/channel.c:978 | in every run neither side has sent more than a window beyond what it has itself acknowledged |
| `LinkedWindows.OneWayTransferIsBounded` | application10/channel.c:978 | so while the other side sends nothing, at most a window of packets gets through |
| `LinkedWindows.OneWayTransferAborts` | application10/channel.c:978 | for every window from two to seven, a run in which one client sends a window of packets, the other acknowledges one and sends none, and the next acceptable packet fails the assertion |
| `LinkedWindows.WindowOneStalls` | application10/channel.c:982 | with a window of one each side sends at most one packet, in every run |
| `LinkedWindows.WindowOneNeverAborts` | application10/channel.c:971-989 | and no legal message fails an assertion |
| `LinkedWindows.PeerWindowCanFailIff` | application10/channel.c:978 | for every window from zero to eight: legal messages from the start of a data phase can make the check at 978 fail iff the window is from two to seven |
| `LinkedAcks.AckChecksPass` | application10/channel.c:949-969 | for windows from one to seven, in every run from the start of a data phase with any acknowledgements but those above SEQ_MAX whose remainder and the window make SEQ_MAX, no message fails an assertion on acknowledgements |
| `LinkedAcks.WindowOneIsStuck` | application10/channel.c:949-989 | with a window of one no acknowledgement whatever does harm |
| `LinkedAcks.RiskyAckFails` | application10/channel.c:949-958 | for windows from two to seven and every such number, a run from the start of a data phase in which a legal acknowledgement fails the assertion |
| `LinkedAcks.OpenWindowFails` | application10/channel.c:949-958 | at windows zero and eight, a run of legal messages in which a legal acknowledgement fails the assertion |
| `LinkedAcks.AckCheckCanFailIff` | application10/channel.c:949-969 | together, for every window from zero to eight: with one number above SEQ_MAX allowed, an assertion on acknowledgements can fail iff the window is zero or eight, or it is at least two and the number's remainder and the window make SEQ_MAX |
| `LinkedAcks.LegalAcksCanFailIff` | application10/channel.c:949-969 | with legal numbers alone, iff the window is zero or eight |
| `LinkedReset.PacketsBetweenConfirmations` | application10/channel.c:208-224 | in every run after a server reset in which one client has confirmed, its numbers are exactly the packets it has sent since, at most a window |
| `LinkedReset.SecondConfirmationStartsDataPhase` | application10/channel.c:460-470 | when the other client confirms, both ends are in the data phase, and in step with some counts iff at most one packet was sent meanwhile |
| `LinkedReset.NextPacketRestores` | application10/channel.c:971-989 | in every run from there the ends are out of step by the lost packets until that client's next packet and in step from it on; only the misdirected check can fail |
| `LinkedReset.FullWindowStalls` | application10/channel.c:484-541 | if a whole window was lost, that client gets no further packet accepted in any run of accepted messages |
| `LinkedReset.LossyRun` | application10/channel.c:801-809 | every number of lost packets up to the window occurs |
| `LinkedReset.ResetOutOfStep` | application10/channel.c:632-657 | for every window of two or more, a run from the data phase through a server reset to two ends in step with no counts, one of them stalled |
| `LinkedChannel.Client.ReserveLowChannel` | application10/client.c:586-607 | the least LCN in 1..1023 not in the table gets a new channel and nothing else changes; none iff all are taken |
| `LinkedChannel.Client.ChannelFor` | application10/client.c:350-361 | an unknown LCN gets a new idle channel, a known one its own |
| `LinkedChannel.Client.RestartChannels` | application10/client.c:392-483 | in any order of the walk, every channel is restarted as the specification says and the table is empty |
| `LinkedChannel.Client.CheckChannelTimers` | application10/client.c:635-640 | in any order of the walk, the channels become the sweep of what they were, and no assertion fails |
| `LinkedChannel.FindClient` | application10/client.c:573-584 | the first client of that address, or none iff no client has it |
| `LinkedChannel.Channel.ReceiveMessage` | application10/channel.c:712-989 | the switch over states and messages from the server does what the specification says, or fails the same check |
| `LinkedChannel.Channel.PunishClear` | application10/channel.c:603-630 | clears both ends and cuts the peer's link; a channel in P6 goes to D1 and one in P7 stays |
| `LinkedChannel.Channel.PunishReset` | application10/channel.c:632-657 | resets both ends: D1 waits in D3, D2 is released, other states stay |
| `LinkedChannel.Channel.ClientCallAccepted` | application10/channel.c:358-400 | connects both ends with the negotiated facilities, or clears, or fails the peer or range assertion |
| `LinkedChannel.Channel.ClientCallCollision` | application10/channel.c:402-417 | both ends collide, or the peer assertion fails |
| `LinkedChannel.Channel.ClientClearRequest` | application10/channel.c:420-436 | the peer is cleared and this end keeps pointing at it |
| `LinkedChannel.Channel.ClientResetRequest` | application10/channel.c:438-458 | for a cause that a client may give, this end waits in D2 and its peer is told; otherwise both ends are reset |
| `LinkedChannel.Channel.ClientResetConfirmation` | application10/channel.c:460-470 | this end returns to D1 and its waiting peer is released |
| `LinkedChannel.Channel.ClientData` | application10/channel.c:484-541 | forwards, punishes or aborts exactly as the specification says, on both objects |
| `LinkedChannel.Channel.ClientAck` | application10/channel.c:543-599 | the same for RR and RNR |
| `LinkedChannel.Channel.ProcessMessage` | application10/channel.c:101-255 | the switch over the nine states for client messages, on both objects |
| `LinkedChannel.Channel.CallRequested` | application10/channel.c:257-346 | a call is placed iff the caller may call, facilities are in range, and the called client exists, takes calls and has a free LCN; otherwise the caller is cleared and no table changes |
| `LinkedChannel.PlaceableIff` | application10/channel.c:257-322 | who may call whom: the caller is not barred from calling, the facilities are in range, and the first client of that address takes calls and has one of 1..1023 free |
| `LinkedChannel.ProcessMessageIn` | application10/channel.c:101-255 | a client message changes a closed set of channel objects as the step of the net says, or fails the same check |
| `LinkedChannel.CallRequestedIn` | application10/channel.c:257-346 | so does a call request: the caller is cleared, or the set grows by the called channel and the two are linked |
| `LinkedChannel.RestartIn` | application10/channel.c:667-705 | so does a restart of one channel |
| `LinkedChannel.CheckTimersIn` | application10/channel.c:998-1088 | so does a timer check, and it fails no assertion |
| `LinkedChannel.Channel.Restarted` | application10/channel.c:667-705 | the channel is idle and its former peer unlinked and cleared |
| `LinkedChannel.Channel.CheckTimers` | application10/channel.c:998-1088 | nothing before the expiry time, then the expiry the specification gives for the timer and its count |
| `CrcTable.TableIsDivision` | application10/crc.c:34-99 | each of the 256 entries is its index times x^32, reduced by the generator |
| `CrcWord.MulXLinear` | application10/crc.c:30-31 | a step of the reduction is linear |
| `CrcWord.MulXInjective` | application10/crc.c:30-31 | and loses nothing |
| `Crc.TableStepIsMulX8` | application10/crc.c:103 | one table step is eight single-bit steps |
| `Crc.UpdateIsDivision` | application10/crc.c:31-108 | for every start value and byte string the result is the remainder of long division, bit by bit, by 0x104C11DB7 |
| `Crc.UpdateConcat` | application10/crc.c:101-107 | a concatenation updates in turn |
| `Crc.UpdateInjective` | application10/crc.c:101-107 | different registers stay different |
| `Crc.ShortChangeShows` | application10/crc.c:101-107 | up to four changed bytes change the register |
| `Crc.BurstIsDetected` | application10/crc.c:110-114 | equally long strings that differ only within four consecutive bytes have different checksums |
| `Crc.UpdateCrc32` | application10/crc.c:101-108 | the loop computes the update function |
| `Crc.Crc32` | application10/crc.c:110-114 | the complement of the remainder of the division that starts from a register of ones |
| `Crc.ChecksumIsComplement` | application10/crc.c:110-114 | the same of the checksum function that frames use |
| `Crc.CheckValue` | application10/crc.c:110-114 | the checksums of a zero byte and of the digits 1 to 9: 0xB1F7404B and 0xFC891918 |
| `CodecProofs.ParserIsLocal` | application10/msg.c:452-529 | what follows a frame in the buffer does not change how it parses |
| `CodecProofs.PrefixNeedsMore` | application10/msg.c:350-366 | no strict prefix of a frame is complete or an error |
| `CodecProofs.GetPutBody` | application10/msg.c:568-712 | the fields of every kind but DIRECTORY are read back as printed, whatever follows |
| `CodecProofs.FrameParts` | application10/msg.c:384-428 | length, payload, padding and checksum of a printed frame are where the parser looks |
| `CodecProofs.RoundTrip` | application10/msg.c:532-1013 | the bytes of every printable message, with anything appended, parse to that message and consume exactly the frame |
| `CodecProofs.EncodeInjective` | application10/msg.c:731-1013 | different messages never print the same |
| `CodecLayout.EncodeLayout` | application10/msg.c:885-1013 | every byte of a printed frame in plain offsets: signature, length, version, kind, LCN, each field of each kind with its width, byte order and length prefix, zeros, checksum |
| `CodecLayout.UnpackReads` | application10/msg.c:533-729 | a message that the parser delivers, from whatever frame, is what the bytes at those offsets say, and nothing but padding and checksum follows it |
| `CodecLayout.DeliveredIff` | application10/msg.c:533-729 | a printable message is delivered from a frame iff its bytes are so laid out and nothing else follows |
| `CodecLayout.UnpackRefuses` | application10/msg.c:555-712 | a wrong version or an unknown kind: the reason, the header repeated, twelve bytes read |
| `CodecLayout.UnpackTruncated` | application10/msg.c:277-310 | a text or block that runs past the frame: too short, stopped after its length |
| `CodecLayout.UnpackWrongLength` | application10/msg.c:714-727 | a body followed by too little or too much: the reason and where the cursor stopped |
| `CodecLayout.BufferCases` | application10/msg.c:337-381 | what becomes of the front of any buffer, from its first eight bytes |
| `CodecLayout.EnvelopeReasons` | application10/msg.c:480-529 | which envelope error is reported, in the order of the checks, and that otherwise the payload decides |
| `CodecMachine.FrameSize` | application10/msg.c:735-885 | the sizing pass counts exactly the payload bytes |
| `CodecMachine.ToByteArray` | application10/msg.c:732-1013 | the cursor printer fills a buffer of the counted size with exactly the frame, every byte in the place the layout gives |
| `CodecMachine.GetBodyAt` | application10/msg.c:568-712 | the cursor parser of each kind agrees with the field functions, and stops where they stop |
| `CodecMachine.NewFromData` | application10/msg.c:533-729 | message or reason, and the position where the cursor stopped; the message is what the bytes at the offsets of the layout say |
| `ReceiveLoop.ParseIntoMessage` | application10/msg.c:452-529 | the envelope checks in order, with the announced length in 32 bits |
| `Reassembly.DrainKeepsTail` | application10/client.c:203-252 | what is left is the unread end of the buffer, and each item cost at least twelve bytes |
| `Reassembly.DrainStopsAt` | application10/client.c:203-252 | the loop goes on waiting, gives up or aborts for what is at the front of the bytes it leaves |
| `Reassembly.FullBufferIff` | application10/client.c:172 | for arbitrary bytes: the buffer stays full, so that the space check fails, iff its 1024 bytes begin a frame announced longer than that |
| `Reassembly.AbortedIff` | application10/msg.c:369-381 | for arbitrary bytes: the assertion on the payload length fails iff the loop comes to a header whose length wraps the frame length around |
| `Reassembly.DrainStream` | application10/client.c:203-252 | any part of a stream of whole frames drains to the items of its complete frames and keeps the rest |
| `Reassembly.ChunkingInvariance` | application10/client.c:165-252 | for every split into reads: items are exactly those of the complete frames in order, the leftover is a strict prefix of the next frame, and the space check before the next read passes |
| `Reassembly.WholeStream` | application10/client.c:203-252 | at the end of the stream every frame has been dealt with and the buffer is empty |
| `Reassembly.MessagesArrive` | application10/client.c:203-252 | printed messages arrive unchanged and in order, however the bytes are cut |
| `Reassembly.EnvelopeErrorIsWhole` | application10/msg.c:480-511 | a frame with a bad checksum, a short payload or an LCN out of range is consumed whole with one diagnostic |
| `Reassembly.ErrorsStayLocal` | application10/client.c:213-246 | such frames anywhere in a stream cost one diagnostic each and nothing else |
| `Reassembly.BurstIsDiagnosed` | application10/msg.c:384-412 | a message damaged within four consecutive payload bytes is reported, never delivered |
| `ReceiveLoop.Connection.Read` | application10/client.c:166-200 | the data is appended to the buffer |
| `ReceiveLoop.Connection.MoveDown` | application10/client.c:248-249 | the unread bytes are now at the front, despite the overlap |
| `ReceiveLoop.Connection.ParseMessages` | application10/client.c:203-252 | queue, diagnostics, buffer and status are those of the specification |
| `ReceiveLoop.Connection.InputAvailable` | application10/client.c:141-163 | one read and its parsing is one step of the receiver that chunking invariance speaks of; after a fatal error the buffer is empty and the queue stays |
| `ReceiveLoop.OneItem` | application10/client.c:219-236 | a message goes to the queue and a diagnostic back to the client |
| `ReceiveLoop.NoItemIsLost` | application10/client.c:219-236 | every item is in one of the two lists |
| `ReceiveLoop.OnlyMessages` | application10/client.c:226-236 | if every item is a message, they are the queue and nothing was reported |
| `StringOrder.RanksExist` | src/lib.c:265-271 | strcmp orders any array of strings as some numbers are ordered |
| `IndexSort.SortedIsOrdered` | src/lib.c:279-295 | insertion leaves the strings in order |
| `IndexSort.SortedElements` | src/lib.c:279-295 | and permutes the indices |
| `IndexSort.SortedIsStable` | src/lib.c:279-295 | and keeps indices of equal strings in their order |
| `IndexSort.SortedOfOrdered` | src/lib.c:279-295 | and leaves alone what is in order |
| `IndexSort.InsertAt` | src/lib.c:285-293 | the inner loop places one entry |
| `IndexSort.InsertionSort` | src/lib.c:279-295 | in place, indx[left..right) becomes that sorted sequence and nothing else changes |
| `QuickSort.Sort3` | src/lib.c:260-275 | three entries are in order, others untouched |
| `QuickSort.Exchange` | src/lib.c:343-363 | the scans stay inside the segment by their sentinels and cross with smaller entries left and larger right |
| `QuickSort.IncreasingStays` | src/lib.c:335-366 | partitioning leaves a strictly increasing segment as it is |
| `QuickSort.TiesLoseOrder` | src/lib.c:335-366 | partitioning eight strings in order, six of them equal, leaves a larger string before a smaller one, and so does the whole sort |
| `QuickSort.Partition` | src/lib.c:335-366 | the segment is rearranged and split around its pivot; a strictly increasing segment stays as it is |
| `QuickSort.QuickSort` | src/lib.c:307-384 | for 1 <= n < 2^31 it aborts on a full stack at most if n >= 2^28; otherwise indx is a permutation of 0..n-1, in blocks of at most seven, each not smaller than the one before and in order but for its last entry; for n <= 7 the exact result; an array in order without repeated strings ends in order; the result is that of the recursion in which the smaller part of a split is sorted first |
| `QuickSort.RoomToPush` | src/lib.c:367-371 | a segment that is split leaves room for one more bracket |
| `QuickSort.SortedIff` | src/lib.c:307-384 | the result is sorted iff no block ends with a string smaller than another in it |
| `QuickSort.ShortSortedIff` | src/lib.c:322-325 | up to seven strings end sorted iff the last of them is not smaller than any other |
| `QuickSort.TwoStringsStay` | src/lib.c:322-325 | two strings in the wrong order stay in the wrong order |

## Left out

- Sockets, the GLib main loop, the GTK program, the SWIG wrapper, logging, name tables and errno mapping: input, output and presentation.
- Clocks: the time of an event is a parameter, and durations are the source's constants in seconds.
- Memory ownership: channels removed by a restart stay as objects that no table reaches, and messages are values.
- The messages that linked channels send to their clients, with their causes, diagnostics and LCNs: only the effect on channels is modelled. Forwarded messages carry the sender's LCN (application10/channel.c:337, 561, 590).
- Client registration (states C1 to C4), the client's own restart timer and the directory search: their channel part is modelled as restart of a client's channels and creation of channels by LCN.
- `src/poll.c` and `src/channels_table.c`: the broker model starts after the poll loop's range checks and ends when a channel is ready.
- `src/joza_msg.c`: a generated codec for multi-part frames; the framed codec is the one modelled.
- `safe121`, `pack121`, `unpack121`, `namefind`, `keyfind` and `indexx` of `src/lib.c`.
- UTF-8 and address validation of parsed strings.
- A string with a NUL inside, and the NULL string that prints as the empty one: texts are byte sequences without NUL.
- The printer of DIRECTORY, which does not exist, and the fields its parser would fill.
- LinkedReset.PacketsBetweenConfirmations: and the other members of `LinkedReset` are for windows from one to seven; at zero and eight the data phase fails in the ways `LinkedWindows` and `LinkedAcks` show.
- Reassembly.ChunkingInvariance: frames that pass the checksum but have a malformed payload are outside, because the loop then advances only to where the cursor stopped.
- QuickSort.QuickSort: n = 0 is outside, because n - 1 wraps around in the source; so is n from 2^31 on, which the stack of C integers cannot hold.
- QuickSort.SortedIff: for more than seven strings the condition is on the blocks of the result, which depend on the pivots; a condition on the input is given one way only, for arrays in order without repeated strings.
- ReceiveLoop.Connection.InputAvailable: the restart of the client's channels after a fatal error is `LinkedChannel.Client.RestartChannels` and not repeated here.
