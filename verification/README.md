# Models of the fofoca mesh

Dafny models of five parts of this repository that are state machines at heart, and proofs of what
each is for. One module per source component; the files verify together with
`dafny verify dfyconfig.toml`.

**Rollback netplay** (`crates/fofoca-netplay`). `Timeline` says what is known of a player's inputs
and what simulating them means. `InputQueue`, `SavedStates`, `Requests`, `Sync`, `PeerProtocol` and
`Session` are the crate's classes, with its rings and loops, each method proved against that
specification; `Resimulation` is what a request list does to a game. `Driver` is the frame loop: its
`RunFrame` is the main result, that speculating, rolling back and simulating again comes to the same
as simulating once with the inputs now known, and `PlayMatch` says so of a whole match at one peer,
published checksums included. `Delivery` and `Match` put any number of peers on a network that loses,
duplicates and reorders packets, and show that logs stay in step, that published checksums agree and
that nobody reports a desync; `Seat` proves that the methods of the session class take exactly the
steps of that match. `Handshake` is the five round trips.

**Source routing** (`crates/fofoca-iroh-multihop-transport`). `Graph` is the shortest-path search with
its lazily cleaned heap and saturating costs, and the disjoint backups on top of it; `Topology` the
table of link vectors; `Route` a route and the way back; `Relay` the gates a node puts a cell
through, and a network of nodes in which anyone may inject anything; `Forwarder` one node's queues
and byte budget.

**Shared documents** (`crates/fofoca-doc`). `MeshDoc` applies changes in causal order behind a write
gate and holds orphans back under ceilings; `Backfill` is a chain of changes that arrives in any
order, and exactly how much of it survives; `Merge` and `Transaction` write JSON merge patches.

**Multipart bodies** (`crates/fofoca-protocol`). `Reassembly` is the budgeted store of partial groups.

**Session slots** (`crates/fofoca-iroh-webrtc-transport`). `Registry` is the table of generations,
reservations and guards.

`Options`, `Collections` and `Json` hold what several modules share.

## What the models take as given

- The game fulfils every request, in order, between calls
  (crates/fofoca-netplay/src/request.rs:11-13), and its step does not depend on whether an input was
  predicted. Its rules are parameters: any deterministic step and hash.
- No peer has been declared disconnected. A disconnected peer stops counting for confirmation
  (crates/fofoca-netplay/src/session.rs:291-306), while its late inputs are still filed. Polling
  therefore asks that no connection is about to time out.
- Simulating a frame again asks that its inputs are still in the 128-frame rings. In a match in which
  any two peers' prediction windows and delays add up to at most 128 that is so in every run
  (`Matches.RingNeverOverruns`, `Seats.SeatedHasRoom`); `Drivers.PlayOn`, which takes any packets at
  all, stops where a peer has run 128 frames less the window ahead.
- `publish_checksum` is called when its documentation says, after a successful advance
  (crates/fofoca-netplay/src/session.rs:364-368). `Drivers.PublishedTooEarly` is what happens if it is
  called between an input's arrival and the next advance, and `Drivers.PublishedRightIff` says exactly
  when what is published is right.
- No address is listed twice in a roster.
- How many frames the pacing yields (`recommend_skip`) is arbitrary.
- The network of a match carries that match's own packets. Packets of other sessions are dealt with
  in `Handshake`.
- Frame numbers do not reach the end of their 32 bits, nor counters that of theirs. Link costs,
  handshake tokens and saturating tick counters keep their width.
- The identity of a change is the change: hashes do not collide. How a set of changes reads as a
  document is any function of the set. A body that does not open or decode carries no change.
- Numbers in a patch are kept as they are written.
- A shard header has been through its own deserialization
  (crates/fofoca-protocol/src/message/shard.rs:79-106), so its index is below its total, and one
  shard alone fits a group's ceiling, which frames of at most 3840 bytes do.
- Steps that hold a lock or run between two awaits are atomic, among them queueing a cell with its byte
  accounting; map iteration order is arbitrary.

## Where code and documentation differ

- crates/fofoca-netplay/src/lib.rs:30-32 calls a prediction window of zero lockstep. With it
  `add_local_input` always refuses (crates/fofoca-netplay/src/sync.rs:115) and no frame is ever
  simulated: `Matches.ZeroWindowNeverAdvances`. An input is accepted exactly while fewer frames than
  the window are unconfirmed: `RollbackSync.Sync.AddLocalInput`.
- crates/fofoca-iroh-multihop-transport/src/addr.rs:98-99 says reversing fails when the source already
  appears in the forward route. It fails exactly when the source appears before the destination:
  `Routes.ReturnRoute`, `Routes.DestinationAsSender`.
- crates/fofoca-iroh-multihop-transport/src/graph.rs:51-52 says the search for disjoint paths stops early
  when no further one exists, and line 71 that a direct path has none. When the direct link is the
  cheapest the search ends there even if a relayed path is left: `Graphs.DirectLinkHidesRelayed`. When
  it stops early is in `Graphs.Graph.DisjointPaths`.
- crates/fofoca-iroh-multihop-transport/src/underlay.rs:135-136 says a full queue drops the cell. The
  cell starts a new queue, which takes the full one's place: `Forwarders.ReplacedWhenFull`.
- crates/fofoca-doc/src/lib.rs:673-675 promises an RFC 7386 merge. Nulls inside objects inside arrays
  are dropped where the standard keeps them: `Merge.WritesMergePatch`, `Merge.NullInAnArray`.

## Model

| member | source | states |
|---|---|---|
| Timeline.FilingOne | crates/fofoca-netplay/src/input_queue.rs:267-288 | Comparing only the newest real input with the one prediction in flight is enough: filing it leaves the first misprediction where it was, finds it, or finds none and every prediction still equals the player's last real input |
| Timeline.FilingKeeps | crates/fofoca-netplay/src/input_queue.rs:207-253 | Filing through a frame delay keeps that, and can bring a misprediction to light only at a frame that had no real input before |
| Timeline.FilingRunAppends | crates/fofoca-netplay/src/protocol.rs:435-442 | A contiguous run filed input by input lands in the log as one stretch, frames below a late first run being filled in |
| Timeline.RewindSettles | crates/fofoca-netplay/src/input_queue.rs:128-135 | Cutting the simulation back to a frame no later than the first contradiction leaves only frames that were given what is known |
| Timeline.ServingSettles | crates/fofoca-netplay/src/input_queue.rs:141-178 | Serving one more frame what is known of it keeps a track free of contradictions |
| InputQueues.InputQueue.FirstIncorrectFrame | crates/fofoca-netplay/src/input_queue.rs:109-111 | The least frame whose simulated input differs from the real one now held; none reported means none exists, in every reachable queue state |
| InputQueues.InputQueue.ResetPrediction | crates/fofoca-netplay/src/input_queue.rs:128-135 | After a rollback, even one another player caused, the frames kept are exactly those given what is known, and detection starts afresh |
| InputQueues.InputQueue.Input | crates/fofoca-netplay/src/input_queue.rs:141-178 | Returns the real input if held, else the last real one, default if none; the status says which; nothing else in the queue's history changes |
| InputQueues.InputQueue.RealInput | crates/fofoca-netplay/src/input_queue.rs:181-196 | Finds an input exactly when it is one of the newest 128, and finds the right one in the ring |
| InputQueues.InputQueue.AddInput | crates/fofoca-netplay/src/input_queue.rs:207-229 | An input made at frame f lands in the log at f plus the configured delay, at f if the delay does not fit 31 bits, after repeats of the last input or defaults; that frame is returned, or none if it is taken, and then nothing is filed |
| InputQueues.InputQueue.AdvanceQueueHead | crates/fofoca-netplay/src/input_queue.rs:223-253 | The delay is added to the frame, and the gap it opens is filled by repeating the last input, one slot per frame, none skipped |
| InputQueues.InputQueue.Push | crates/fofoca-netplay/src/input_queue.rs:255-265 | The ring keeps representing the newest inputs of the log while the oldest age out |
| InputQueues.InputQueue.AddDelayedInput | crates/fofoca-netplay/src/input_queue.rs:267-288 | Filing checks the prediction it settles and keeps the reported misprediction the least one |
| InputQueues.InputQueue.StartPredicting | crates/fofoca-netplay/src/input_queue.rs:141-178 | The prediction's cursor is the frame the next real input will fill, its value the last real input |
| Requests.Game.Fulfil | crates/fofoca-netplay/src/request.rs:11-13 | Fulfilling a request list in order leaves the state and every cell where the list, folded over them, puts them |
| SavedStatesRing.RingIsWindow | crates/fofoca-netplay/src/saved_states.rs:28-49 | The ring holds exactly the newest frames its size allows, one cell each, at the places computed |
| SavedStatesRing.SavedStates.ByFrame | crates/fofoca-netplay/src/saved_states.rs:52-60 | Found exactly when the frame is in the window, and then it is the one cell that holds it |
| SavedStatesRing.SavedStates.Push | crates/fofoca-netplay/src/saved_states.rs:42-49 | A frame already held gets its own cell again, a new one the oldest cell: no two cells ever claim one frame |
| Resimulation.PlainIs | crates/fofoca-netplay/src/lib.rs:1-32 | The plain simulation is given each player's real input where there is one, from there on the last one repeated, and the default where there is none |
| Resimulation.ReplayPlays | crates/fofoca-netplay/src/sync.rs:223-228 | Replaying frames from a right state leaves the right state, and overwrites exactly the cells of the frames it replays, each in place |
| Resimulation.UndoPlays | crates/fofoca-netplay/src/sync.rs:205-230 | Loading the last right state and replaying undoes a misprediction completely |
| Resimulation.NewFramePlays | crates/fofoca-netplay/src/session.rs:356-360 | Saving the newest frame over the oldest cell and advancing leaves state and ring right |
| Resimulation.AdvancePlays | crates/fofoca-netplay/src/session.rs:353-361 | The whole request list of one advance, with or without a rollback, brings game and every saved state to the plain simulation of the known inputs |
| RollbackSync.Sync.AddLocalInput | crates/fofoca-netplay/src/sync.rs:110-123 | Refused exactly at the edge of the prediction window, or for a player that does not exist; else filed, and nothing else changes |
| RollbackSync.Sync.AddRemoteInput | crates/fofoca-netplay/src/sync.rs:129-141 | Filed in that player's log and no other's; an unknown player is an error that changes nothing |
| RollbackSync.Sync.SynchronizeInputs | crates/fofoca-netplay/src/sync.rs:145-151 | One input per player, real where known, else the last known, in handle order |
| RollbackSync.Sync.SaveCurrentState | crates/fofoca-netplay/src/sync.rs:154-160 | Re-saving a frame reuses its cell; saving the newest one takes the oldest cell |
| RollbackSync.Sync.FirstIncorrectFrame | crates/fofoca-netplay/src/sync.rs:181-188 | The earliest misprediction of any player |
| RollbackSync.Sync.CheckSimulation | crates/fofoca-netplay/src/sync.rs:192-198 | Emits exactly the load and the replay that undo the earliest misprediction, nothing if there is none; the frame to go back to is always in the saved ring |
| RollbackSync.Sync.AdjustSimulation | crates/fofoca-netplay/src/sync.rs:205-230 | The branch with nothing to roll back to is never taken; afterwards every player's simulated inputs are what is known, up to the same frame |
| RollbackSync.Sync.Resimulate | crates/fofoca-netplay/src/sync.rs:223-229 | The loop re-advances frame by frame and ends where the simulation was, every cell reused |
| RollbackSync.Sync.ConfirmThrough | crates/fofoca-netplay/src/sync.rs:175-177 | The confirmed frame only grows, and only over frames every player has an input for |
| RollbackSync.Sync.NextFrame | crates/fofoca-netplay/src/session.rs:353-361 | One advance: undo, save, gather, move on; all tracks end settled one frame further |
| RollbackSync.RollbackStaysInWindow | crates/fofoca-netplay/src/sync.rs:97-123 | Whenever a rollback is due, its target is a simulated frame within the prediction window |
| RollbackSync.AdvancingFits | crates/fofoca-netplay/src/sync.rs:110-123 | Advancing only inside the window keeps every contradiction within reach of the saved ring |
| RollbackSync.FilingFits | crates/fofoca-netplay/src/sync.rs:110-141 | So does filing any player's input at any time |
| RollbackSync.SettledSeeksNothing | crates/fofoca-netplay/src/session.rs:353-361 | Simulating with what is known leaves no misprediction to find |
| Sessions.P2PSession.PollRemotePeers | crates/fofoca-netplay/src/session.rs:185-254 | Connections, logs, news and what is sent are exactly what taking in the packets one by one and then ticking every connection comes to; logs only grow, what was simulated is untouched, and what is confirmed is what every connection has received |
| Sessions.P2PSession.Receive | crates/fofoca-netplay/src/session.rs:197-210 | The inputs a packet brings are filed for that connection's player only, in order, each once |
| Sessions.P2PSession.RefreshConfirmedFrame | crates/fofoca-netplay/src/session.rs:291-306 | Confirmed is the least frame any connection has received, everything simulated if there is none, and never goes back |
| Sessions.P2PSession.RefreshState | crates/fofoca-netplay/src/session.rs:275-288 | Running exactly when it was before or every peer has handshaken, announced once |
| Sessions.P2PSession.AdvanceFrame | crates/fofoca-netplay/src/session.rs:330-362 | Refused exactly when not running, yielding, without a local input, or at the edge of the window; a refusal changes nothing, except that yielding counts one frame off; else exactly the requests of one advance, the input queued for every peer, and no misprediction left; what is confirmed stays as it was |
| Sessions.P2PSession.FileLocalInput | crates/fofoca-netplay/src/sync.rs:110-123 | The local input lands inputDelay frames later, after that many default inputs at the start of a match, and no other log changes; or it is refused with nothing changed |
| Sessions.P2PSession.PublishChecksum | crates/fofoca-netplay/src/session.rs:369-389 | Published, once, exactly when the confirmed frame is new and saved with a checksum; that checksum is put on file with every connection and sent to each |
| Sessions.DesyncsAreNews | crates/fofoca-netplay/src/session.rs:190-254 | Every checksum that a poll hears from a known peer, and that differs from the first one on file for its frame, is in the poll's news as a desync naming both |
| Drivers.AdvanceRefines | crates/fofoca-netplay/src/session.rs:330-362 | Seen from before the local input was filed: the requests leave the game and all cells at the plain simulation of one frame more, and touch no other cells |
| Drivers.RunFrame | crates/fofoca-netplay/src/lib.rs:1-32 | The rollback refinement: after every successful advance and its requests, the state is that of simulating every frame once, in order, with each player's known inputs, whatever arrived when and whatever had been guessed, and no misprediction is outstanding; it succeeds exactly when running, not yielding, given an input and inside the window, and otherwise changes neither game nor inputs |
| Drivers.SettledBelowSeek | crates/fofoca-netplay/src/sync.rs:181-188 | Everything simulated before the earliest misprediction was given what is known |
| Drivers.PublishedRightIff | crates/fofoca-netplay/src/session.rs:369-389 | The checksum of the first n frames simulated, all inputs known, is right for every game exactly when no misprediction below n is outstanding: for the other direction, a game that tells the two histories apart |
| Drivers.PublishChecksum | crates/fofoca-netplay/src/session.rs:369-389 | In a game that fulfils its requests a checksum is published exactly when the confirmed frame is new and within the saved window; it is that of the simulation so far, and of simulating everyone's real inputs if no misprediction below it is outstanding |
| Drivers.AdvanceAndPublish | crates/fofoca-netplay/src/session.rs:364-389 | Straight after a successful advance none is: what is published then is the checksum of simulating everyone's real inputs |
| Drivers.HearReplies | crates/fofoca-netplay/src/session.rs:185-207 | A session just opened starts playing once the five replies of its one peer have come, with nothing filed yet |
| Drivers.PublishedTooEarly | crates/fofoca-netplay/src/session.rs:185-389 | A new two-player session shakes hands, runs two frames, hears the other player's inputs, and publishes the checksum before its next advance: it is wrong |
| Drivers.ReachLeavesRoom | crates/fofoca-netplay/src/input_queue.rs:22 | As long as nobody is 128 frames less the window ahead, no input that an advance needs has aged out of a ring |
| Drivers.TakeTurn | crates/fofoca-netplay/src/session.rs:6-20 | One turn of the frame loop, whatever arrives: game and saved states stay where the inputs simulated so far put them, and a published checksum is right |
| Drivers.PlayOn | crates/fofoca-netplay/src/session.rs:6-20 | Any number of turns: at the end the game is where the plain simulation of the inputs known right after its last advance puts it, that being the latest turn whose frame count went up, and every checksum published on the way is right by all that is known at the end |
| Drivers.PlayMatch | crates/fofoca-netplay/src/session.rs:6-20 | The same from a new session and a new game |
| Seats.TakeSeat | crates/fofoca-netplay/src/session.rs:120-161 | A session built from the match's setup is that player's side at the beginning of every match |
| Seats.PollInMatch | crates/fofoca-netplay/src/session.rs:185-254 | A poll is a run of the match: every packet of a peer is delivered, every connection ticks, what all have sent is confirmed; the side, the packets posted and everyone else's side are exactly what those steps say |
| Seats.AdvanceInMatch | crates/fofoca-netplay/src/session.rs:330-362 | An advance is one step of the match or none, and needs no input that has aged out of a ring: that follows from the match |
| Seats.PublishInMatch | crates/fofoca-netplay/src/session.rs:369-389 | Publishing after an advance is one step of the match or none, and what is published is the checksum of everyone's own inputs |
| Seats.TurnInMatch | crates/fofoca-netplay/src/session.rs:6-20 | A whole turn is a run of this player's steps in the match |
| Seats.OthersLeaveSeat | crates/fofoca-netplay/src/session.rs:185-389 | Whatever the other players do in between, the session is still its player's side, ready for the next turn |
| Seats.SeatedHasRoom | crates/fofoca-netplay/src/input_queue.rs:22 | In every run with room in the rings, a session has what its next advance needs |
| Seats.PollIsRun | crates/fofoca-netplay/src/session.rs:185-254 | The packets taken in one by one, the ticks in order and the confirmation are enabled steps, one after another |
| Seats.PostedToAll | crates/fofoca-netplay/src/session.rs:382-388 | A published checksum is sent to every other player and to no one else |
| PeerProtocols.NewInputsAreTail | crates/fofoca-netplay/src/protocol.rs:435-442 | What a packet adds past the last frame received is its tail, frame by frame, none twice |
| PeerProtocols.ReceivedContinues | crates/fofoca-netplay/src/protocol.rs:411-449 | Whatever a packet adds continues what was received before; the connection's record moves along with it and never back |
| PeerProtocols.TickingKeepsAlive | crates/fofoca-netplay/src/protocol.rs:199-252 | A tick within the silence limit changes neither a connection's standing nor what it has received |
| PeerProtocols.PeerProtocol.OnMessage | crates/fofoca-netplay/src/protocol.rs:372-474 | The method's updates come to the packet's outcome as a function of the connection and the packet alone |
| PeerProtocols.PeerProtocol.Handle | crates/fofoca-netplay/src/protocol.rs:386-474 | Once admitted, every kind of packet does what its branch does and nothing else |
| PeerProtocols.PeerProtocol.Admit | crates/fofoca-netplay/src/protocol.rs:304-365 | Before the peer's nonce is latched only a reply to the outstanding request is admitted, and latches it; after, exactly the packets carrying it |
| PeerProtocols.PeerProtocol.Tick | crates/fofoca-netplay/src/protocol.rs:199-252 | Sync requests on their cadence while syncing, everything unacked while running, silence past the limit disconnects |
| PeerProtocols.PeerProtocol.InputMessage | crates/fofoca-netplay/src/protocol.rs:255-266 | Drops from the unacked inputs exactly those acked, and sends all the rest |
| PeerProtocols.ChecksumIsCompared | crates/fofoca-netplay/src/protocol.rs:461-471 | A checksum raises a desync naming frame and both values exactly if the first one on file for its frame differs, and none if it agrees or there is none |
| PeerProtocols.InputRunIsTaken | crates/fofoca-netplay/src/protocol.rs:411-449 | A run that leaves no gap gives exactly its inputs past the last frame received, each under its own frame, and is acked up to its end; one that leaves a gap gives nothing; its own ack counts either way |
| PeerProtocols.OtherPacketsAnswered | crates/fofoca-netplay/src/protocol.rs:386-460 | The latest ack counts, a quality report is noted and echoed, a sync request gets its own token back, and nothing else changes |
| PeerProtocols.RequestAnsweredEarly | crates/fofoca-netplay/src/protocol.rs:334-341 | A syncing connection answers sync requests before any nonce is known |
| PeerProtocols.TickResends | crates/fofoca-netplay/src/protocol.rs:199-266 | A running connection sends, in one packet, every input it holds that is not acked, in order, and every sixtieth tick its frame advantage, clamped to eight bits, and its silence |
| PeerProtocols.TickAsks | crates/fofoca-netplay/src/protocol.rs:219-230 | A syncing one asks with its current token at every eighth tick |
| PeerProtocols.TickGivesUp | crates/fofoca-netplay/src/protocol.rs:206-216 | After six hundred silent ticks a connection is lost, and that is reported once |
| PeerProtocols.ChecksumIsFiled | crates/fofoca-netplay/src/protocol.rs:189-196 | The newest checksum is on file last, before it the newest sixty-three of the others |
| PeerProtocols.InitialTokensDiffer | crates/fofoca-netplay/src/protocol.rs:143-146 | Different nonces start from different tokens |
| Handshake.RotationTurnsOnce | crates/fofoca-netplay/src/protocol.rs:394 | Modulo eight the token rotation is one cycle of length eight |
| Handshake.TokensDiffer | crates/fofoca-netplay/src/protocol.rs:143-146 | For every 32-bit start, any eight consecutive tokens are pairwise different |
| Handshake.HandshakeIsFiveReplies | crates/fofoca-netplay/src/protocol.rs:389-410 | In every run a connection is running only after exactly five replies, one to each of its tokens in order, all carrying the nonce latched by the first |
| Handshake.RunningMeansFive | crates/fofoca-netplay/src/protocol.rs:389-410 | The five replies of a running connection, one by one: their tokens and their nonce |
| Handshake.NoReplyCountsTwice | crates/fofoca-netplay/src/protocol.rs:392-394 | However often it is duplicated, no packet advances the handshake twice |
| Handshake.ForeignPacketsChangeNothing | crates/fofoca-netplay/src/protocol.rs:304-321 | The nonce, once latched, is fixed, and packets carrying another change nothing at all |
| Delivery.RetiringKeeps | crates/fofoca-netplay/src/protocol.rs:255-266 | Only what was received is dropped from what is resent, and what is sent carries all the rest |
| Delivery.FilingPacketKeepsPrefix | crates/fofoca-netplay/src/protocol.rs:417-449 | Filing any packet leaves the receiver with a gap-free prefix of the sender's own log, the delay's default frames included: exempting the first packet hides no hole |
| Delivery.MakingOne | crates/fofoca-netplay/src/input_queue.rs:223-248 | Making one more input extends the sender's own log and what it holds for resending in step |
| Matches.TickKeeps | crates/fofoca-netplay/src/protocol.rs:199-266 | Resending keeps sender and receiver logs in step for any number of peers |
| Matches.DeliverKeeps | crates/fofoca-netplay/src/session.rs:190-210 | So does the arrival of any packet ever sent, late, out of order or again |
| Matches.AdvanceKeeps | crates/fofoca-netplay/src/session.rs:330-362 | So does advancing, at any peer, and it leaves no misprediction outstanding |
| Matches.PublishKeeps | crates/fofoca-netplay/src/session.rs:369-389 | Every checksum on file or in flight is that of simulating the players' own inputs |
| Matches.RunsKeep | crates/fofoca-netplay/src/session.rs:185-389 | All of this holds in every state of every run of a match |
| Matches.InputsArriveInOrder | crates/fofoca-netplay/src/protocol.rs:411-449 | In every run, what a peer has filed for a player is a gap-free prefix of what that player made, and the player's own side still holds everything beyond it |
| Matches.RingNeverOverruns | crates/fofoca-netplay/src/input_queue.rs:22 | If any two peers' windows and delays add up to at most 128, no advance ever needs an input that has aged out of the ring |
| Matches.PublishedIsTrue | crates/fofoca-netplay/src/session.rs:364-389 | What a side publishes, having advanced with no packet arriving since, is the checksum of everyone's own inputs, whichever side it is |
| Matches.PublishersAgree | crates/fofoca-netplay/src/session.rs:364-389 | Any two checksums published for one frame, by whomever and whenever, are equal |
| Matches.NobodyDesyncs | crates/fofoca-netplay/src/protocol.rs:461-471 | No packet of a match makes anyone report a desync, however the network treats it |
| Matches.ZeroWindowNeverAdvances | crates/fofoca-netplay/src/sync.rs:110-117 | A peer with a prediction window of zero never simulates a frame |
| Graphs.WalkCostSaturates | crates/fofoca-iroh-multihop-transport/src/metric.rs:27-29 | A walk costs the sum of its links, or the ceiling if that is less |
| Graphs.TreeWalkIsPath | crates/fofoca-iroh-multihop-transport/src/graph.rs:173-192 | At every moment of the search the links back from a known node spell a real walk from the source, at the known cost |
| Graphs.TreeWalkIsOrdered | crates/fofoca-iroh-multihop-transport/src/graph.rs:173-192 | and one that meets no node twice, zero-cost cycles included |
| Graphs.WalkMeetsFrontier | crates/fofoca-iroh-multihop-transport/src/graph.rs:98-116 | Any admissible walk either stays among expanded nodes or has met one still waiting, at no more than its cost |
| Graphs.PoppedIsCheapest | crates/fofoca-iroh-multihop-transport/src/graph.rs:98-103 | When the destination is popped no admissible walk costs less |
| Graphs.ExhaustedIsUnreachable | crates/fofoca-iroh-multihop-transport/src/graph.rs:98-118 | When nothing is left to expand, no admissible walk exists |
| Graphs.Graph.ShortestPathAvoiding | crates/fofoca-iroh-multihop-transport/src/graph.rs:81-118 | On every graph the search ends; it returns a path exactly when the destination is reachable through unblocked nodes, a simple one of real links, and none costs less |
| Graphs.Graph.Relax | crates/fofoca-iroh-multihop-transport/src/graph.rs:140-171 | Relaxing one link keeps the search's invariant, superseded heap entries and all |
| Graphs.Graph.Reconstruct | crates/fofoca-iroh-multihop-transport/src/graph.rs:175-191 | Walking back from the destination ends, and gives the hops of a simple real path in order |
| Graphs.Graph.DisjointPaths | crates/fofoca-iroh-multihop-transport/src/graph.rs:53-76 | At most so many paths; no two share a hop but the last; each costs no more than any walk clear of the earlier ones' hops; nothing follows a direct link, and it stops early only there or when no clear walk is left |
| Graphs.DirectLinkHidesRelayed | crates/fofoca-iroh-multihop-transport/src/graph.rs:48-76 | A graph with a direct link and a relayed path no cheaper than it: the search returns the direct link alone, though the relayed path is disjoint from it |
| Graphs.GreedyIsDisjoint | crates/fofoca-iroh-multihop-transport/src/graph.rs:48-52 | Such paths share no interior hop and come cheapest first |
| Graphs.GreedyOverHops | crates/fofoca-iroh-multihop-transport/src/graph.rs:48-76 | Over the hops themselves: no two paths share one but the last, and each path costs no more than any walk that passes through no earlier path's hop but the last |
| Routes.New | crates/fofoca-iroh-multihop-transport/src/addr.rs:51-59 | A list of hops becomes a route exactly when it has one to eight hops and no two share either identity |
| Routes.ReturnRoute | crates/fofoca-iroh-multihop-transport/src/addr.rs:100-110 | The way back is legal exactly when the source shares no identity with a hop before the destination; it is as long, through the same hops the other way |
| Routes.ReturnRouteOfReturnRoute | crates/fofoca-iroh-multihop-transport/src/addr.rs:90-92 | Reversing the way back at the source gives the forward route |
| Routes.DestinationAsSender | crates/fofoca-iroh-multihop-transport/src/addr.rs:98-99 | A source that is the destination itself is not refused, although it appears in the route |
| Topologies.FreshestIsKept | crates/fofoca-iroh-multihop-transport/src/topology.rs:66-74 | After any sequence of vectors the table holds exactly the freshest of each origin heard from |
| Topologies.HearingOrderDoesNotMatter | crates/fofoca-iroh-multihop-transport/src/topology.rs:7-9 | Hearing the same vectors in another order, or more often, gives the same table, if no origin reuses a sequence number |
| Topologies.DialableWhen | crates/fofoca-iroh-multihop-transport/src/topology.rs:99-111 | A path becomes a route exactly when it is short enough, every hop has advertised, and no two advertised one endpoint; the route is legal and visits the path's hops |
| Topologies.RoutesAreThePaths | crates/fofoca-iroh-multihop-transport/src/topology.rs:96-112 | Every route is one of the paths, and they keep their order |
| Topologies.Topology.Ingest | crates/fofoca-iroh-multihop-transport/src/topology.rs:66-74 | Kept, and reported as a change, exactly if newer than what is held |
| Topologies.Topology.BuildGraph | crates/fofoca-iroh-multihop-transport/src/topology.rs:138-146 | The graph has each origin's usable links in their order, whatever order the table is walked in |
| Topologies.UsableAre | crates/fofoca-iroh-multihop-transport/src/topology.rs:138-146 | A graph has exactly the advertised links whose cost is not the unusable one |
| Topologies.NoneLeftOut | crates/fofoca-iroh-multihop-transport/src/topology.rs:95-113 | Every path that can be dialled becomes a route |
| Topologies.Topology.RouteTo | crates/fofoca-iroh-multihop-transport/src/topology.rs:95-113 | Legal routes to the destination along the disjoint cheapest paths, in order, no two sharing a hop but the last; those that cannot be dialled are left out |
| Relays.CellsKeepToTheirRoute | crates/fofoca-iroh-multihop-transport/src/underlay.rs:199-221 | In every run, whatever anyone injects, a cell is where it was put or was carried along its route by the nodes it names, in order, after being put there by the hop before |
| Relays.ForwardedOncePerNode | crates/fofoca-iroh-multihop-transport/src/addr.rs:40-43 | No node forwards a cell twice, the node it reaches did not forward it, and it is forwarded fewer times than its route has hops |
| Relays.TrafficIsBounded | crates/fofoca-iroh-multihop-transport/src/addr.rs:20-24 | A network forwards at most seven cells for each one put into it |
| Relays.SentWhen | crates/fofoca-iroh-multihop-transport/src/transport.rs:157-173 | Sending is refused exactly when some hop of the route has one of the sender's identities; else the packet goes out at the first hop as it is |
| Relays.HandledWhen | crates/fofoca-iroh-multihop-transport/src/underlay.rs:161-221 | A cell passes exactly if it is at this node under both identities and came from the hop before; then it goes on to the next hop, or at the last is delivered, the packet as it was sent, with the way back; with none it is dropped |
| Relays.SentCellsArrive | crates/fofoca-iroh-multihop-transport/src/transport.rs:157-173 | What is sent and not lost is delivered at the last hop and nowhere else, every other hop having forwarded it once, with a legal way back |
| Relays.AnswersComeBack | crates/fofoca-iroh-multihop-transport/src/addr.rs:80-99 | An answer along that way back is not refused by its sender, reaches the source, and carries the original route |
| Forwarders.QueuedInChanges | crates/fofoca-iroh-multihop-transport/src/underlay.rs:90-92 | Changing one queue changes the bytes queued in all by exactly the difference |
| Forwarders.EnqueueingKeepsTidy | crates/fofoca-iroh-multihop-transport/src/underlay.rs:137-159 | Queueing a cell keeps every queue and the writer table within size, and the table pointing at live queues of the right hop |
| Forwarders.EnqueuedWhen | crates/fofoca-iroh-multihop-transport/src/underlay.rs:137-159 | Within the byte budget, a cell whose hop has room is kept and comes last, one whose hop is full or new begins a queue, and at either ceiling nothing changes |
| Forwarders.Forwarder.Enqueue | crates/fofoca-iroh-multihop-transport/src/underlay.rs:137-159 | A cell joins its hop's queue, or starts a new one, or is dropped at a ceiling; the byte budget equals what is queued throughout |
| Forwarders.Forwarder.SpawnWriter | crates/fofoca-iroh-multihop-transport/src/underlay.rs:236-259 | Refused exactly when the table is full of other hops; nobody else's entry goes |
| Forwarders.Forwarder.TakeOne | crates/fofoca-iroh-multihop-transport/src/underlay.rs:291-293 | A writer takes its oldest cell off the queue, and the cell stays charged while it is written |
| Forwarders.Forwarder.FinishOne | crates/fofoca-iroh-multihop-transport/src/underlay.rs:294-295 | Once the write is over, well or badly, exactly that cell's bytes are returned |
| Forwarders.ReplacedWhenFull | crates/fofoca-iroh-multihop-transport/src/underlay.rs:137-159 | A queue is replaced in the table exactly when a cell for its hop, within the byte budget, finds it full |
| Forwarders.ReplacedGetsNothing | crates/fofoca-iroh-multihop-transport/src/underlay.rs:132-159 | A replaced queue gets no more cells, and no cell that is queued brings it back into the table |
| Forwarders.Forwarder.GiveUp | crates/fofoca-iroh-multihop-transport/src/underlay.rs:262-279 | A writer that gives up returns exactly the bytes it still had queued, and removes its own entry but not its successor's |
| Forwarders.Forwarder.Retire | crates/fofoca-iroh-multihop-transport/src/underlay.rs:80-88 | Only the entry that is still this writer's is removed |
| Forwarders.Forwarder.HandleCell | crates/fofoca-iroh-multihop-transport/src/underlay.rs:199-221 | Forwards to the next hop, delivers with the return route, or drops, exactly as the gates say, and then leaves no trace |
| Reassembly.FirstSeenWins | crates/fofoca-protocol/src/reassembly.rs:114-119 | A slot is filled exactly when a shard with its index has arrived, by the first that did |
| Reassembly.CountIsFull | crates/fofoca-protocol/src/reassembly.rs:67-71 | Counting slots decides completeness: as many as the total means none is missing |
| Reassembly.CompleteWhen | crates/fofoca-protocol/src/reassembly.rs:67-71 | A group is complete exactly when every index has arrived, and then has its header |
| Reassembly.ArrivalOrderDoesNotMatter | crates/fofoca-protocol/src/reassembly.rs:305-314 | The same shards in another order, or repeated, make the same body, if their author signed one body per index |
| Reassembly.JoinedIsCut | crates/fofoca-protocol/src/reassembly.rs:305-315 | A whole body falls into one piece per index, in index order, each the body of the first shard that came with that index |
| Reassembly.CompletedIsWhole | crates/fofoca-protocol/src/reassembly.rs:305-314 | A completed message is such a body under the envelope of the first shard at index 0, with the group's id and out of the shards' own chain |
| Reassembly.GrownIsOneMore | crates/fofoca-protocol/src/reassembly.rs:130-155 | A shard changes its group's slot, bytes, time and, at index 0, header, and nothing else |
| Reassembly.ChargeIs | crates/fofoca-protocol/src/reassembly.rs:16-22 | A shard is charged its body and 512 bytes, but 2048 at least |
| Reassembly.WeightsAddUp | crates/fofoca-protocol/src/reassembly.rs:103 | A body weighs its characters' bytes in UTF-8 |
| Reassembly.StaleWhen | crates/fofoca-protocol/src/reassembly.rs:172-188 | A group is stale after five idle minutes, or after an hour |
| Reassembly.AskingWhen | crates/fofoca-protocol/src/reassembly.rs:259-284 | A group of more than sixteen shards asks once it has been idle for a minute and a minute has gone by since it asked, for the lowest missing indices, sixty-four at most, none passed over |
| Reassembly.Filling | crates/fofoca-protocol/src/reassembly.rs:130-165 | One more shard leaves the group short of an index, or makes the message: the first shard's envelope round the first-seen bodies in index order |
| Reassembly.ReassemblyStore.Ingest | crates/fofoca-protocol/src/reassembly.rs:98-166 | Each outcome with its exact cause: completion when the last distinct index arrives and not before, repeats and contradictions dropped with nothing changed, a group over its ceiling dropped; other authors' groups are untouched, the author's own yield only for want of budget, stalest first |
| Reassembly.ReassemblyStore.Admit | crates/fofoca-protocol/src/reassembly.rs:194-222 | Room is made among the author's other groups only, stalest first, none needlessly; the refusal for an author's budget exhausted by one group never happens; the loop ends |
| Reassembly.ReassemblyStore.Evict | crates/fofoca-protocol/src/reassembly.rs:287-297 | Exactly the group's bytes come off both counters: the saturating subtractions never clamp, and no zero entry stays |
| Reassembly.ReassemblyStore.StalestGroupOf | crates/fofoca-protocol/src/reassembly.rs:225-231 | None if the author has no other group, else one no other is staler than |
| Reassembly.ReassemblyStore.ListedExactly | crates/fofoca-protocol/src/reassembly.rs:150-151 | An author is in the table exactly when something of theirs is buffered |
| Reassembly.ReassemblyStore.Store | crates/fofoca-protocol/src/reassembly.rs:130-165 | Storing an admitted shard keeps the books and budgets; a completed group leaves at once |
| Reassembly.ReassemblyStore.Synthesize | crates/fofoca-protocol/src/reassembly.rs:305-315 | The body is the slots in index order, under the first shard's envelope; it never fails for bad characters |
| Reassembly.ReassemblyStore.SweepStale | crates/fofoca-protocol/src/reassembly.rs:172-188 | Exactly the groups that stalled or outlived the ceiling go, and their number is returned |
| Reassembly.ReassemblyStore.Forget | crates/fofoca-protocol/src/reassembly.rs:249-251 | Only that group goes, with its budget |
| Reassembly.ReassemblyStore.RepairTickets | crates/fofoca-protocol/src/reassembly.rs:259-284 | One ticket for each big group that is stalled and was not asked for within the window, no other; only the time of asking changes |
| Reassembly.MissingPassesNoneOver | crates/fofoca-protocol/src/reassembly.rs:273-276 | The indices asked for are in order and pass none over, up to 64 |
| Reassembly.TicketsAskForSomething | crates/fofoca-protocol/src/reassembly.rs:259-284 | No ticket is ever empty |
| Registries.Registry.Reserve | crates/fofoca-iroh-webrtc-transport/src/registry.rs:71-90 | Refused exactly when anyone holds the peer; else a fresh generation that owns the slot |
| Registries.Registry.Fulfil | crates/fofoca-iroh-webrtc-transport/src/registry.rs:196-218 | Refused exactly when the claim has been lost; then the slots are untouched and none of them is this claim's |
| Registries.Registry.Commit | crates/fofoca-iroh-webrtc-transport/src/registry.rs:258-260 | The session stays, owned by the table |
| Registries.Registry.DropHandle | crates/fofoca-iroh-webrtc-transport/src/registry.rs:221-226 | Dropping a reservation or guard removes its own slot if it still has one and changes nothing else, a replacement least of all |
| Registries.Registry.RemoveIfGeneration | crates/fofoca-iroh-webrtc-transport/src/registry.rs:147-158 | A stale close hook is a no-op |
| Registries.Registry.Remove | crates/fofoca-iroh-webrtc-transport/src/registry.rs:136-140 | The slot goes whoever holds it, and whether it was live is returned |
| Registries.Registry.Clear | crates/fofoca-iroh-webrtc-transport/src/registry.rs:161-166 | Nothing is left, and the number that were live is returned |
| Registries.Registry.OneSlotPerGeneration | crates/fofoca-iroh-webrtc-transport/src/registry.rs:71-90 | No generation owns two slots |
| Registries.Registry.OnlyCommittedRemain | crates/fofoca-iroh-webrtc-transport/src/registry.rs:221-271 | With no reservation or guard outstanding, only committed sessions are left |
| Registries.Registry.LiveMeansFulfilled | crates/fofoca-iroh-webrtc-transport/src/registry.rs:93-97 | A usable session is one whose own handle was fulfilled and not dropped |
| MeshDocs.ClosedIsApplied | crates/fofoca-doc/src/lib.rs:571-587 | Every dependency-closed set of changes delivered and not lost has been applied |
| MeshDocs.MeshDoc.NothingAhead | crates/fofoca-doc/src/lib.rs:462-464 | In every state, whatever a change in the document depends on is there too, and whatever waits lacks something |
| MeshDocs.MeshDoc.IsJudged | crates/fofoca-doc/src/lib.rs:388-430 | What becomes of a frame, told by the document it meets: ignored without a change of its signer's own, a duplicate, held back for a missing dependency, refused for its number or by the gate, or applied |
| MeshDocs.ForgesWhen | crates/fofoca-doc/src/lib.rs:221-243 | The gate turns a change away exactly when its number is taken or the field it guards would read differently, in the document itself, for a nickname that is not the author's |
| MeshDocs.MeshDoc.AppliedIsLargestClosed | crates/fofoca-doc/src/lib.rs:388-464 | With nothing missing, what is applied is the largest dependency-closed part of what was delivered; what was turned away once and has come again is not missing |
| MeshDocs.MeshDoc.Converges | crates/fofoca-doc/src/lib.rs:388-464 | Two replicas sent the same changes, in any order and any number of times, with nothing still missing at either, hold the same document and wait for the same changes |
| MeshDocs.MeshDoc.Apply | crates/fofoca-doc/src/lib.rs:447-460 | Applied and recorded together or not at all; refused exactly for a repeated actor and number |
| MeshDocs.MeshDoc.Ingest | crates/fofoca-doc/src/lib.rs:388-430 | Each outcome with its exact cause and effect; nothing is lost but to the gate, to a repeated number, or to the buffer's ceilings, and those frames' keys are handed back |
| MeshDocs.MeshDoc.BufferOrphan | crates/fofoca-doc/src/lib.rs:475-519 | The author's own highest makes room if the newcomer is lower, else the newcomer stays out; a full buffer turns newcomers away; every frame let go has its key handed back |
| MeshDocs.MeshDoc.HighestOf | crates/fofoca-doc/src/lib.rs:540-546 | The author's highest number, the latest arrival among equals |
| MeshDocs.MeshDoc.PendingBy | crates/fofoca-doc/src/lib.rs:530-535 | Exactly how many of this author's wait |
| MeshDocs.MeshDoc.DrainPending | crates/fofoca-doc/src/lib.rs:571-587 | Ends with nothing ready left waiting; what left the buffer was applied in dependency order, or was turned away by the gate or for a repeated number at that point, and nothing else is lost |
| MeshDocs.MeshDoc.TryApplyPending | crates/fofoca-doc/src/lib.rs:591-599 | An entry leaves the buffer: turned away exactly if it would move another's guarded field or repeat a number, else applied |
| MeshDocs.ParkingOne | crates/fofoca-doc/src/lib.rs:475-519 | Whatever is buffered, no author has more than 128 waiting and all together no more than 512, and no other author's entries change |
| MeshDocs.OnlyItsOwner | crates/fofoca-doc/src/lib.rs:388-430 | Over any stretch of a run a nickname's guarded field changes only if a frame naming that nickname as author was applied in it |
| Backfill.OrphanArrives | crates/fofoca-doc/src/lib.rs:475-519 | An orphan of a chain joins those that wait, or, at the author's ceiling, the highest of them and it goes, and that one's key is handed back |
| Backfill.NoneCrowded | crates/fofoca-doc/src/lib.rs:475-519 | Below the lowest place given up so far no place has 128 arrived ones between the first gap and itself |
| Backfill.LandingDoc | crates/fofoca-doc/src/lib.rs:571-599 | When the link at the first gap comes, it lands together with everything up to the next gap, or up to the lowest place given up, and nothing else |
| Backfill.ReceiveOne | crates/fofoca-doc/src/lib.rs:388-430 | One link more, in any order: what has landed is still exactly the part before the first gap or the lowest place given up, and what waits below that is all that has come |
| Backfill.Backfilled | crates/fofoca-doc/src/lib.rs:475-599 | A chain in any order of arrival: a link lands exactly if at no time 128 others waited between the first gap and a place no higher than its own; what waits at the end is what a share of 128 places holds that gives up its highest place when full; the keys handed back are exactly those of the links that neither landed nor wait |
| Backfill.WaitingSoFar | crates/fofoca-doc/src/lib.rs:475-519 | Such a share, after any arrivals: what has come above the first gap and below the lowest place given up all waits, and the lowest place ever given up is the lowest that 128 others have crowded out |
| Backfill.NothingLeftWaiting | crates/fofoca-doc/src/lib.rs:475-599 | If all that comes after the first link of the chain lands, no link is left waiting at the end |
| Backfill.StragglerWaits | crates/fofoca-doc/src/lib.rs:475-599 | Otherwise one may be: in an order of 131 links, the last waits for one whose key was handed back |
| Backfill.TailFirstLands | crates/fofoca-doc/src/lib.rs:477-481 | If the tail from r on comes first and at most m links of the head ever wait at once, exactly the first r + 128 - m links land |
| Backfill.BackfilledTailFirst | crates/fofoca-doc/src/lib.rs:475-599 | In a document such a chain lands up to there, no link is left waiting, and the keys handed back, each once, are those of exactly the links from r + 128 - m on |
| Backfill.HeadInOrder | crates/fofoca-doc/src/lib.rs:477-481 | A head in its own order never waits: exactly the first r + 128 links land |
| Merge.WrittenAfresh | crates/fofoca-doc/src/lib.rs:736-758 | An item written into a new list is what the patch says exactly when no object in it has a null member |
| Merge.WritesMergePatch | crates/fofoca-doc/src/lib.rs:676-758 | Over every document, what a patch writes is MergePatch of RFC 7386, section 2, exactly when no object inside one of its arrays has a null member |
| Merge.MergePatchMeans | crates/fofoca-doc/src/lib.rs:673-675 | MergePatch member by member, as section 2 of RFC 7386 has it |
| Merge.WrittenMeans | crates/fofoca-doc/src/lib.rs:676-758 | The same of what is written, with lists written item by item over nothing |
| Merge.WritingTwice | crates/fofoca-doc/src/lib.rs:676-758 | Writing any patch twice is writing it once |
| Merge.NullInAnArray | crates/fofoca-doc/src/lib.rs:676-758 | Such a patch, and the two different results |
| Transactions.ReplacedThenBelow | crates/fofoca-doc/src/lib.rs:704-714 | Writing into a child object moves nothing but what is under it |
| Transactions.ReplacedElsewhere | crates/fofoca-doc/src/lib.rs:676-758 | A write moves nothing that does not lie at, below or above the object written |
| Transactions.Transaction.WriteMap | crates/fofoca-doc/src/lib.rs:676-702 | Whatever order the members are written in, the map ends as the patch written over it, and nothing outside it moves |
| Transactions.Transaction.EnsureMap | crates/fofoca-doc/src/lib.rs:704-714 | An existing map is kept with its members, anything else is replaced by an empty one |
| Transactions.Transaction.WriteValue | crates/fofoca-doc/src/lib.rs:717-734 | A scalar or list replaces whatever was at the key |
| Transactions.Transaction.AppendAll | crates/fofoca-doc/src/lib.rs:724-729 | A new list ends with every item written afresh, in order |
| Transactions.Transaction.AppendItem | crates/fofoca-doc/src/lib.rs:736-758 | The item, written afresh, is added at the end and nothing else changes |
| Transactions.BuildChange | crates/fofoca-doc/src/lib.rs:364-382 | A merge that is not an object is refused; any other gives MergePatch of the document exactly when no object inside its arrays has a null member |

## Left out

- Disconnected peers, and inputs that arrive from them late: the rollback results assume there are none.
- The pacing of `time_sync.rs` and the forced rollbacks of `sync_test.rs`.
- Packets dropped for a foreign nonce, a spent token or an unknown address are dropped, but not counted: those counters only feed logs.
- Backfilled: no other orphan of that author is waiting, the other authors leave 128 places free, and no link is sent again while the chain is under way.
- AppliedIsLargestClosed: says nothing about gated documents, where what the gate lets through depends on the order in which changes arrive.
- Requests.Game.Fulfil: the game is a state and a step; what else a driver does while fulfilling is not modelled.
- SpawnWriter: dialling, retries and the writer tasks themselves are steps that may be taken at any time. That every writer finishes is not so: a task holds a sender of its own queue (crates/fofoca-iroh-multihop-transport/src/underlay.rs:262-299), so its queue never closes and it ends only when dialling, opening the stream or a write fails. A writer that `Forwarders.ReplacedWhenFull` has replaced, and whose writes all succeed, waits for ever once it has written what it had (`Forwarders.ReplacedGetsNothing`).
- SentCellsArrive: nothing is said about cells the queues, the inbox or the underlay lose on the way.
- BuildChange: a patch that produces no operation at all is not told apart, and the change's bytes, actor and hash are not modelled.
- Ingest: decoding, decryption and signatures happen before or inside parameters; drop warnings are not modelled.
- `ShardCache`, the sender's store of shards to serve again, and the completion of logged groups outside the store.
- JSON snapshots of the topology, serialization of cells and routes, sockets, dialling and tasks.
- `fofoca-chunks`, `fofoca-stream`, the member directory, the mesh daemon, the FFI, the command line and the web parts.
