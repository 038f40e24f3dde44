# NoCapKVM, modelled and proved in Dafny

NoCapKVM lets one computer (Master) lend its keyboard and mouse to another (Slave), and plays
Slave's sound. This project models the state machines behind it and proves what they promise.
`dafny verify dfyconfig.toml` checks everything.

| part | files | main results |
|---|---|---|
| Connection | `Wire`, `TcpServer`, `TcpClient`, `Handshake`, `HandshakeAgreement`, `HonestAttempt`, `Trust`, `ServerLife`, `ClientLife` | `Lockstep`, `ClientKeysAreServers`, `SessionStartsClean`, `EndsAsItWent`, `HonestAttemptConnects`, `HonestDevicesConnect`, `PairingIsForGood`, `ConnectedIsTrusted`, `StoreRemembersIff`, `KickedNeedsApproval`, `LastPressCounts`, `ShutdownStops` |
| Key exchange | `NoisePrimitives`, `NoiseIk` | `HonestRunAgrees`, `HonestRunIs`, `TamperingIsNoticed`, `TransportKeysNeverRepeat` |
| Encrypted channel | `SecureChannel`, `ChannelDelivery`, `EndToEnd` | `AcceptedIsPrefix`, `HowACallEnds`, `AllArrive`, `SendersNeverInterleave`, `SessionDelivers` |
| Audio playout | `JitterBuffer`, `PlayoutSchedule`, `JitterAccounting`, `Playback`, `PlaybackSession` | `BufferRefinesSchedule`, `EverySessionHeard`, `FramesConserved`, `EpisodesAreExact`, `EpisodesAmortised` |
| Input ownership | `Crossing`, `InputHook`, `InputPump`, `Ownership`, `RestAfterReturn`, `InputDelivery`, `Injector`, `HeldKeys`, `Scenarios` | `HandoffKeepsThePoint`, `BoundedDrift`, `NoBounceToMaster`, `SlowPushReturns`, `RestIsStableIff`, `InputGoesToItsOwner`, `SlaveGetsItsInput`, `TracksTheCursorIff`, `NoStuckKeys`, `TypedIsDown` |
| Reconnecting | `Reconnect`, `Refusal` | `AttemptsBounded`, `EndsSoonAfterDeadline`, `RefusalIsFinal` |
| Settings, clipboard, windows, log | `AudioSettings`, `ClipboardSync`, `RollingWindow`, `AudioLossWindow`, `BufferDepthWindow`, `RotatingLogger` | `SettingsInTheEnd`, `MasterEditWinsIff`, `CopySpreadsIff`, `SendsAreBounded`, `AudioLossWindow.Reading`, `LogKeepsASuffix` |

## How it is put together

Most parts have three layers. A *value* of the state and *functions* that say what one call does
to it; a *class* with the source's own fields, whose methods update them in place and are proved
to do what the functions say; and *lemmas* about the functions over whole runs, where a run is
any sequence of calls and outside events.

- **Environment.** Sockets, clocks, devices, OS events and user actions are inputs, and every
  result is for all of them. The network may cut, delay, truncate, corrupt or replay what it
  carries; `ChannelDelivery` and `TamperingIsNoticed` quantify over that. The handshake itself
  is between two parties over two FIFO byte streams, as TCP provides.
- **Cryptography** is ideal: `NoisePrimitives` is a free algebra of terms with Diffie-Hellman as
  an unordered pair, and in `SecureChannel` a ciphertext opens at a nonce exactly if the sender
  produced those bytes at that nonce. There are no axioms.
- **Threads.** `TcpServer::run` and `TcpClient::run_once` share state with the UI thread, so they
  are machines of atomic steps: whatever a thread does between two points at which another could
  tell the difference. The class methods are these steps. In `Trust` any UI action may come
  between any two of them.
- **Units.** A cell of `Wire` is one byte of one item on the wire. A reader that is off by a single
  byte gets an item that is not the one sent, so lockstep is about bytes, not about messages.

## Where the code and its comments differ

The code is followed each time.

- include/nockvm/audio/jitter_buffer.h:69-73 says `pop` fast-forwards over a backlog.
  src/audio/jitter_buffer.cpp:79-115 does not.
- include/nockvm/discovery/noise_primitives.h:37-38 says the protocol name is always hashed. It is
  32 bytes, and src/discovery/noise_primitives.cpp:50-53 zero-pads it.
- `MixHash(prologue)` of section 5.3 of the Noise Protocol Framework, revision 34, is skipped
  (src/discovery/noise_ik.cpp:23-24). The results are about the agreement of the two sides.

## What turned out false, and exactly when it is true

- "A Disconnect pressed while Connected shows ends in a kick": true if and only if the accept thread
  is in the session loop when it is pressed (`KickedIffAskedInSession`, press by press
  `DisconnectPressDecides`). Connected also shows at three places before and two after the loop,
  where a press has no effect (`EarlyDisconnectIsLost`, `LateDisconnectIsLost`).
- "A return to Master is stable at rest": `RestIsStableIff` says when, for any number of frames. Across
  the seam it fails exactly when the peer sits to the left or right and the margin was cleared on
  the other axis alone (`BounceToSlaveIff`; `SeamBounces` is a run). After the emergency escape it
  holds on every desktop at least two pixels wide and high (`EscapeStableIff`). After the loss of
  Slave's last display it fails exactly when motion still pending for Slave carries the middle onto
  the arranged edge and a display comes back (`DisplayLossStableIff`; `MotionOutlivesDisplay` is a
  run).
- "Input reported while Slave owns it goes to Slave": all of it is found by a frame, once and in order
  (`InputGoesToItsOwner`); a frame that finds the link or the last display gone leaves it to Master,
  and the emergency escape drops it (`FateOfInput`).
- "While Master owns the input the tracked point follows the cursor": true for as long as every takeover
  starts at the cursor (`TracksTheCursorIff`), and whether one does can be told before the frame
  (`TakeoverTracksIff`). When the hook goes in, motion left in it from before must not carry the
  starting point away (`LinkDropMovesThePoint` is a run where it does); across the seam, the push
  past it must be no longer than Master's desktop (`FlungOffTheDesk`); without displays, no motion
  may wait (`MotionOutlivesDisplay`); after the escape it always holds.
- "Nothing stays down on Slave after a return": true of every key except the four left-hand
  modifiers, and for those `ReturnLeaves` gives the condition (`LeftControlStaysDown` is a run).
  After the emergency escape it fails exactly for keys let go in that frame (`EscapeLeaves`;
  `KeyStaysDownAfterEscape` is a run).
- "Master's last edit of the audio settings wins": exactly when it differs from the last request, or
  that request is still on its way, and it is not skipped -- or when Slave has that setting anyway
  (`MasterEditWinsIff`, `RepeatedWishIsIgnored`). Requests are numbered per connection, but the number
  last applied outlives it. A request with another number is never skipped, and one with that number
  is if it is the first (`MasterEditForetold`, `StaleNumberSkipsRequest`); a later one is, unless
  Slave polls after some requests of the connection and before this one (`PollDecides`). On Slave's
  first connection nothing is skipped (`FirstConnectionSkipsNothing`).
- "Slave's last edit of the audio settings stays": exactly when no request is underway then, or it is
  skipped, or asks for the same (`SlaveEditStaysIff`; `SlaveEditIsOverwritten` is a connection).
- "Both clipboards end up equal": for a single copy, on either side, exactly under the condition of
  `CopySpreadsIff`; copying again what came from the other side leaves them different
  (`RecopyLeavesThemDifferent`), and two copies at once swap (`SimultaneousCopiesSwap`).
- "Senders under the mutex put whole frames on the wire": between two sends, exactly if no write has
  failed with bytes of its frame left. Each frame on which one has is cut short, at the start, in
  the middle or before the last byte, and later frames follow it (`SendersNeverInterleave`,
  `WholeFollowsHalf`); what the receiver accepts is a prefix all the same (`AcceptedIsPrefix`).

## Model

| member | source | states |
|---|---|---|
| `JitterBuffer.JitterBuffer.constructor` | src/audio/jitter_buffer.cpp:26-28 | a new buffer is empty and its ceiling is never below its target, for every target; from a target of 1 on it is valid |
| `JitterBuffer.JitterBuffer.Push` | src/audio/jitter_buffer.cpp:30-66 | keeps every invariant of the buffer and does what `AfterPush` says; the overflow loop turns at most once |
| `JitterBuffer.JitterBuffer.DropExcess` | src/audio/jitter_buffer.cpp:45-50 | the overflow loop drops exactly the oldest frame, and playback skips past it |
| `JitterBuffer.JitterBuffer.Overflowed` | src/audio/jitter_buffer.cpp:51-55 | a drop opens an overflow episode only if none is running |
| `JitterBuffer.JitterBuffer.ClearIfRecovered` | src/audio/jitter_buffer.cpp:73-77 | an episode ends once the depth is at or below the recovery threshold |
| `JitterBuffer.JitterBuffer.Pop` | src/audio/jitter_buffer.cpp:79-115 | keeps every invariant and returns what `AfterPop` says |
| `JitterBuffer.JitterBuffer.ServeNext` | src/audio/jitter_buffer.cpp:88-114 | the look-up, the miss count and the restart after 40 misses |
| `JitterBuffer.PushKeepsValid` | src/audio/jitter_buffer.cpp:30-66 | a push keeps: depth within the ceiling, every waiting number at or past `next_seq_` while playing, fewer than 40 misses, an episode only above the threshold |
| `JitterBuffer.PopKeepsValid` | src/audio/jitter_buffer.cpp:79-115 | a pop keeps the same invariant |
| `PlayoutSchedule.PushRefines` | src/audio/jitter_buffer.cpp:30-50 | a push, late, duplicate or overflowing, is an arrival of the reference schedule that never erases |
| `PlayoutSchedule.PopRefines` | src/audio/jitter_buffer.cpp:79-115 | a pop is a tick of the reference schedule, with the same answer |
| `PlayoutSchedule.BufferRefinesSchedule` | src/audio/jitter_buffer.cpp:30-115 | over every run the buffer and the schedule give the same answers |
| `PlayoutSchedule.PopServesLatestArrival` | src/audio/jitter_buffer.cpp:79-115 | in every run from a new buffer, a pop returns the last push under the number whose turn it is since the latest restart, and nothing exactly when there is none |
| `PlayoutSchedule.CursorAdvances` | src/audio/jitter_buffer.cpp:47-89 | while playback runs the number looked up never goes back |
| `PlayoutSchedule.PlayedNumbersIncrease` | src/audio/jitter_buffer.cpp:84-113 | between a start and the next restart, played numbers strictly increase |
| `PlayoutSchedule.PlayoutOnSchedule` | src/audio/jitter_buffer.cpp:30-115 | without overflow, the k-th pop serves number s0 + k and plays it exactly if it had arrived by then |
| `JitterAccounting.FramesConserved` | src/audio/jitter_buffer.cpp:30-115 | distinct accepted frames = played + dropped at the ceiling + cleared by a restart + waiting |
| `JitterAccounting.DepthBounded` | src/audio/jitter_buffer.cpp:45-59 | the depth never passes the ceiling; `at_cap_` implies a depth above the recovery threshold |
| `JitterAccounting.EpisodesAmortised` | src/audio/jitter_buffer.cpp:19-59 | (episodes - 1) times the margin never exceeds frames played plus frames cleared |
| `JitterAccounting.EpisodesAreExact` | src/audio/jitter_buffer.cpp:19-77 | over every run: an episode runs from an overflow that finds none running until the depth is down by the margin, and the counter is the number of those overflows |
| `JitterAccounting.StallRestarts` | src/audio/jitter_buffer.cpp:91-104 | any 40 pops in a row that play nothing bring the buffer back to filling |
| `JitterAccounting.RestartOnlyAfterStall` | src/audio/jitter_buffer.cpp:91-104 | playback gives up its position only after 40 pops in a row that played nothing |
| `JitterAccounting.TurnsAreCounted` | src/audio/jitter_buffer.cpp:105-110 | every pop with a turn is counted once, as played or as a miss |
| `JitterAccounting.FillRestartsPlayback` | src/audio/jitter_buffer.cpp:81-86 | from filling, any pushes of target-depth distinct numbers make the next pop play the lowest waiting frame |
| `Playback.PlaybackImpl.constructor` | src/audio/playback.cpp:79-82 | nothing carried; the silence byte follows the bit depth |
| `Playback.PlaybackImpl.NetworkPushes` | src/audio/playback.cpp:129 | pushes from the network thread, one by one, keep the buffer valid |
| `Playback.PlaybackImpl.CopyOut` | src/audio/playback.cpp:58-63 | copies as much of the carry as fits and advances past exactly that; what the callback plays in all stays the same |
| `Playback.PlaybackImpl.DataCallback` | src/audio/playback.cpp:36-72 | the output is the re-chunked sound of `Fill` followed only by silence, one underrun counted if it fell short; it terminates even over empty frames |
| `Playback.FillConserves` | src/audio/playback.cpp:50-64 | old carry + packets popped = sound + new carry, for every callback size |
| `Playback.PlaybackImpl.FillSilence` | src/audio/playback.cpp:66 | the rest of the output is silence, what is in front of it untouched |
| `Playback.FillStarves` | src/audio/playback.cpp:50-71 | a callback falls short exactly when a pop played nothing; that pop is its last call and the carry is played out |
| `PlaybackSession.ListenConserves` | src/audio/playback.cpp:36-72 | re-chunking loses nothing over any sequence of callbacks and arrivals |
| `PlaybackSession.EverySessionHeard` | src/audio/playback.cpp:36-72 | from network thread to sound card, over every session from a new player -- filling, loss, overflow, stalls, restarts: what is heard is, in order and each whole, what was last pushed under the number whose turn it was since the latest restart |
| `PlaybackSession.HeardOnSchedule` | src/audio/playback.cpp:36-72 | while playback keeps running and nothing overflows, those are the consecutive numbers, each heard exactly if it arrived before its turn |
| `NoisePrimitives.DhCommutes` | src/discovery/noise_primitives.cpp:43-46 | the two sides of a key agreement get one secret |
| `NoisePrimitives.AeadDecrypt` | src/discovery/noise_primitives.cpp:91-104 | succeeds exactly on what was sealed under this key, nonce and associated data |
| `NoisePrimitives.SymmetricState.constructor` | src/discovery/noise_primitives.cpp:48-61 | the zero-padded protocol name, no key |
| `NoisePrimitives.SymmetricState.MixHashInto` | src/discovery/noise_primitives.cpp:63-67 | `MixHash` in place |
| `NoisePrimitives.SymmetricState.MixKeyInto` | src/discovery/noise_primitives.cpp:69-76 | the new chaining key and cipher key as HMAC terms; a new key always starts at nonce 0 |
| `NoisePrimitives.SymmetricState.EncryptAndHash` | src/discovery/noise_primitives.cpp:106-116 | seals at the next nonce and hashes the ciphertext |
| `NoisePrimitives.SymmetricState.DecryptAndHash` | src/discovery/noise_primitives.cpp:118-127 | on failure the state is left as it was |
| `NoisePrimitives.SymmetricState.Split` | src/discovery/noise_primitives.cpp:129-132 | the two transport keys as HMAC terms over the chaining key, in the order of section 5.2 of the Noise Protocol Framework, revision 34 |
| `NoiseIk.RunIkResponder` | src/discovery/noise_ik.cpp:74-129 | the responder, step by step on one mutable state, computes `Respond`, or fails where the source does |
| `NoiseIk.AnswerInitiator` | src/discovery/noise_ik.cpp:104-128 | its second half: message 2 and the transport keys |
| `NoiseIk.IkInitiator.SendMessage1` | src/discovery/noise_ik.cpp:19-45 | the initiator up to its first message |
| `NoiseIk.IkInitiator.ReceiveMessage2` | src/discovery/noise_ik.cpp:47-72 | the initiator from the reply on |
| `NoiseIk.HonestRunAgrees` | src/discovery/noise_ik.cpp:19-129 | for all static and ephemeral keys both symmetric states are equal after each message, the responder learns the initiator static key, and the transport keys are swapped |
| `NoiseIk.HonestRunIs` | src/discovery/noise_ik.cpp:19-129 | the honest run written out: the four secrets es, ss, ee, se in this order, every chaining and cipher key as a term over them, what each message seals under which key with which transcript, and both transport keys: the initiator sends with the first |
| `NoiseIk.LowOrderIsRefused` | src/discovery/noise_primitives.cpp:43-46 | a point that X25519 rejects ends the handshake wherever it turns up |
| `NoiseIk.WrongPeerStaticFails` | src/discovery/noise_ik.cpp:24-92 | the responder accepts message 1 exactly when the initiator meant this responder |
| `NoiseIk.TamperingIsNoticed` | src/discovery/noise_ik.cpp:19-129 | whatever was delivered: if the initiator accepts a seal of this responder, nothing was altered and both agree |
| `NoiseIk.HandshakeKeysFresh` | src/discovery/noise_ik.cpp:26-125 | every handshake encryption has its own key at nonce 0; all five keys differ |
| `NoiseIk.TransportKeysNeverRepeat` | src/discovery/noise_ik.cpp:61-127 | two handshakes share a transport key only if they share all four secrets |
| `SecureChannel.ParseInvertsPrefix` | src/discovery/secure_channel.cpp:57-88 | the length prefix reads back as the 32-bit length |
| `SecureChannel.PrefixIsBigEndian` | src/discovery/secure_channel.cpp:57-88 | the most significant byte of the prefix goes first |
| `SecureChannel.SecureChannel.Send` | src/discovery/secure_channel.cpp:47-66 | one nonce per call, used or not; on the wire goes the frame, as far as the socket took it |
| `SecureChannel.SecureChannel.ReadInto` | src/discovery/secure_channel.cpp:26-41 | `read_exact` into a buffer gives exactly the next bytes, or says stalled or closed |
| `SecureChannel.SecureChannel.Recv` | src/discovery/secure_channel.cpp:31-33 | one `recv` appends what it took and takes it off the stream |
| `SecureChannel.SecureChannel.ReceiveFrame` | src/discovery/secure_channel.cpp:68-106 | one call of `receive`, all of its error branches included, a hang-up told from a failure |
| `ChannelDelivery.ReceiveTakesNext` | src/discovery/secure_channel.cpp:68-106 | a call that accepts accepts the message whose turn it is; nothing else moves the nonce |
| `ChannelDelivery.HowACallEnds` | src/discovery/secure_channel.cpp:26-106 | on any stream: exactly when a call times out, delivers, finds the peer gone, or fails; the nonce moves exactly if the frame opens |
| `ChannelDelivery.ReadFails` | src/discovery/secure_channel.cpp:26-41 | a read that does not get its bytes says that the peer is gone exactly if the turn that ends it is its hang-up |
| `ChannelDelivery.AcceptedIsPrefix` | src/discovery/secure_channel.cpp:47-106 | for every chunking, stall, truncation, corruption, replay: accepted is a prefix of sent |
| `ChannelDelivery.OversizedBlocks` | src/discovery/secure_channel.cpp:22-89 | a message over the 8 MiB cap, and everything after it, is never accepted |
| `ChannelDelivery.ReadExactCompletes` | src/discovery/secure_channel.cpp:26-41 | on a stream that holds them a read gets exactly the next bytes, however chunked, or is cut short; the script of the socket alone decides which |
| `ChannelDelivery.EnoughBytes` | src/discovery/secure_channel.cpp:26-41 | a read is cut short exactly if the chunks before the deadline or the close do not add up to it |
| `ChannelDelivery.NextDelivered` | src/discovery/secure_channel.cpp:68-106 | on an honest stream a call delivers the next message exactly if it is not cut short, and then stops at the next frame; cut short, it says closed exactly if the peer hangs up and else error |
| `ChannelDelivery.AllArrive` | src/discovery/secure_channel.cpp:47-106 | exactly what each call gets, timed-out calls included: the next message in order until the messages run out or the bytes of a call do not add up to a frame; then closed or error, as the socket ends |
| `ChannelDelivery.SendersNeverInterleave` | src/discovery/tcp_server.cpp:109-113 | for every interleaving of senders under the mutex, failed writes included: one nonce each; the wire is a beginning of each frame in sealing order; between sends the frames cut short are exactly those with bytes left at a failed write, and the wire is the whole stream if and only if there is none |
| `ChannelDelivery.HeadsAreFrames` | src/discovery/secure_channel.cpp:52-66 | beginnings of frames are the stream of frames if and only if each is all of its frame |
| `ChannelDelivery.WholeFollowsHalf` | src/discovery/tcp_server.cpp:109-113 | a run of two senders: a whole frame follows a half one |
| `Wire.FingerprintNamesBoth` | src/discovery/pairing.cpp:8-17 | the fingerprint depends on both keys and on their order |
| `Wire.ReadsAreLongEnough` | src/discovery/noise_ik.cpp:12-13 | the lengths of the three fixed reads are those of a key and of the two messages |
| `TcpServer.TcpServer.constructor` | src/discovery/tcp_server.cpp:36-40 | listening, nothing decided, nobody kicked |
| `TcpServer.TcpServer.ApprovePairing` | src/discovery/tcp_server.cpp:105 | sets the decision and nothing else |
| `TcpServer.TcpServer.RejectPairing` | src/discovery/tcp_server.cpp:106 | sets the decision and nothing else |
| `TcpServer.TcpServer.DisconnectCurrent` | src/discovery/tcp_server.cpp:107 | sets the flag and nothing else |
| `TcpServer.TcpServer.SendInput` | src/discovery/tcp_server.cpp:109-113 | sends on the shared channel, or refuses if there is none |
| `TcpServer.TcpServer.AcceptClient` | src/discovery/tcp_server.cpp:123-145 | the connection starts with the own device id |
| `TcpServer.TcpServer.OnDeviceId` | src/discovery/tcp_server.cpp:151-164 | look-up and pairing flag |
| `TcpServer.TcpServer.OnPairingFlag` | src/discovery/tcp_server.cpp:163-175 | pairing if either side asks for it |
| `TcpServer.TcpServer.OnPublicKey` | src/discovery/tcp_server.cpp:172-185 | the fingerprint of the two keys is shown |
| `TcpServer.TcpServer.OnHandshakeMessage` | src/discovery/tcp_server.cpp:209-268 | the exchange, the comparison with the trusted key, and the gate for a kicked device |
| `TcpServer.TcpServer.ReceiveBytes` | src/discovery/platform_socket.cpp:147-157 | nothing happens until exactly the bytes of the current read are there |
| `TcpServer.TcpServer.SendDecision` | src/discovery/tcp_server.cpp:196-207 | only an approval is remembered |
| `TcpServer.TcpServer.PassGate` | src/discovery/tcp_server.cpp:246-268 | approved: no longer kicked; otherwise a go-away on the same channel |
| `TcpServer.TcpServer.EndSession` | src/discovery/tcp_server.cpp:388-399 | a requested disconnect, and nothing else, kicks |
| `TcpServer.TcpServer.ContinueRun` | src/discovery/tcp_server.cpp:186-407 | every other step of the accept thread |
| `TcpServer.TcpServer.ContinueSession` | src/discovery/tcp_server.cpp:264-407 | of these, the steps of a connection that is published |
| `ServerLife.BeginsWithOwnId` | src/discovery/tcp_server.cpp:123-145 | a connection begins exactly when a listening, running server accepts one |
| `ServerLife.OnlyNoSkipsPairing` | src/discovery/tcp_server.cpp:155-175 | a known device skips the pairing exactly if its flag says so |
| `ServerLife.LastPressCounts` | src/discovery/tcp_server.cpp:186-246 | over every run: what a wait finds is the last press made during this very wait, at the pairing and at the gate |
| `ServerLife.PairingEnds` | src/discovery/tcp_server.cpp:186-207 | when and how a wait for a first pairing ends: approval sent and remembered, or refusal sent and connection closed |
| `ServerLife.GateEnds` | src/discovery/tcp_server.cpp:230-268 | when and how the wait at the gate ends: connected and no longer kicked, or told to go away |
| `ServerLife.ChannelIff` | src/discovery/tcp_server.cpp:264-407 | over every run: other threads can send exactly from the announcement to the end of the session |
| `ServerLife.HowItLeaves` | src/discovery/tcp_server.cpp:145-407 | exactly what ends a session; a failed read closes the connection at any stage |
| `ServerLife.RunsUntilShutdown` | src/discovery/tcp_server.cpp:46-98 | over every run: the server runs until it is told to stop |
| `ServerLife.ShutdownStops` | src/discovery/tcp_server.cpp:87-407 | over every run: a server told to stop is listening again at most six of its own steps past its reads, whatever user and peer do, and accepts nobody |
| `TcpClient.TcpClient.constructor` | src/discovery/tcp_client.cpp:75-82 | not connected |
| `TcpClient.TcpClient.Start` | src/discovery/tcp_client.cpp:115-147 | the attempt starts with the own device id |
| `TcpClient.TcpClient.OnDeviceId` | src/discovery/tcp_client.cpp:154-168 | look-up and pairing flag |
| `TcpClient.TcpClient.OnPairingFlag` | src/discovery/tcp_client.cpp:173-180 | pairing if either side asks for it |
| `TcpClient.TcpClient.OnPublicKey` | src/discovery/tcp_client.cpp:188-196 | the same fingerprint, own key first |
| `TcpClient.TcpClient.OnDecision` | src/discovery/tcp_client.cpp:194-217 | a rejection is final; an approval is remembered and starts the exchange |
| `TcpClient.TcpClient.BeginExchange` | src/discovery/tcp_client.cpp:216-223 | the first handshake message, or a failed attempt |
| `TcpClient.TcpClient.OnHandshakeReply` | src/discovery/tcp_client.cpp:216-231 | connected, or a failed attempt |
| `TcpClient.TcpClient.ReceiveBytes` | src/discovery/platform_socket.cpp:147-157 | nothing happens until exactly the bytes of the current read are there |
| `TcpClient.TcpClient.LoseSession` | src/discovery/tcp_client.cpp:364-376 | an ended session is retried soon |
| `TcpClient.TcpClient.SendMessage` | src/discovery/tcp_client.cpp:101-105 | sends in a session, or refuses |
| `ClientLife.StatusIsTrue` | src/discovery/tcp_client.cpp:115-376 | over every life of the client: Connected exactly during a session, Failed exactly after an attempt, a fingerprint only of the key the attempt is about |
| `ClientLife.ComesAndGoes` | src/discovery/tcp_client.cpp:115-376 | what begins an attempt and what ends one from outside |
| `ClientLife.WhatTheClientSays` | src/discovery/tcp_client.cpp:101-105 | its session messages are exactly those other threads send during a session, each with the next nonce |
| `ClientLife.OnlyNoSkipsPairing` | src/discovery/tcp_client.cpp:163-180 | a known server is met without pairing exactly if its flag says so |
| `ClientLife.StoreRemembersIff` | src/discovery/tcp_client.cpp:194-214 | over every life of the client: the store holds a key if and only if its last approval read, or the start, put it there and nothing has replaced or forgotten it |
| `Handshake.ServerStepInv` | src/discovery/tcp_server.cpp:142-287 | every step of the server keeps what it has read and sent in protocol order, whatever it is sent |
| `Handshake.ClientStepInv` | src/discovery/tcp_client.cpp:143-250 | the same for the client |
| `Handshake.ServerReadFits` | src/discovery/tcp_server.cpp:145-216 | the next item sent to the server has exactly the length of its current read |
| `Handshake.ClientReadFits` | src/discovery/tcp_client.cpp:145-222 | the next item sent to the client has exactly the length of its current read |
| `Handshake.StepWorldInv` | src/discovery/tcp_server.cpp:142-216 | both conversations and both byte streams stay in step over every delivery and every step |
| `Handshake.Lockstep` | src/discovery/tcp_server.cpp:155-169 | for every pair of stores, chunking, delay and timing: each read gets, item for item, what the peer wrote for that stage |
| `HandshakeAgreement.SamePairingDecision` | src/discovery/tcp_server.cpp:155-171 | both sides take the same pairing decision; neither starts or answers the exchange while the other still pairs |
| `HandshakeAgreement.DecisionDelivered` | src/discovery/tcp_client.cpp:194-214 | Slave goes on after pairing only if Master sent an approval; it gives up for good if and only if it has read a refusal, and Master sent that |
| `HandshakeAgreement.EndsAsItWent` | src/discovery/tcp_client.cpp:145-376 | exactly how an attempt ends: given up if it was refused, a quick retry if it had been in session, the backoff in every other case |
| `Refusal.RefusalIsFinal` | src/discovery/tcp_client.cpp:379-420 | attempts and reconnect loop together: a refused attempt is the last one; one that was in session is followed after the initial backoff, any other after the wait of its streak |
| `HandshakeAgreement.SameFingerprint` | src/discovery/tcp_server.cpp:181-185 | both screens show one fingerprint, of the two real keys |
| `HandshakeAgreement.PairedKeyIsTheirs` | src/discovery/tcp_server.cpp:172-206 | the key to be remembered is the peer own key, for its own id |
| `HandshakeAgreement.ClientKeysAreServers` | src/discovery/tcp_server.cpp:209-223 | whenever the client is in session, wherever the server is by then, also when it has hung up: the client keys are the swapped copies of what this server computed for this very request, with real identities |
| `HandshakeAgreement.KeysAgree` | src/discovery/tcp_server.cpp:209-223 | while both hold keys: real identities, swapped transport keys, whatever happened on the way |
| `HandshakeAgreement.SameAudioKey` | src/discovery/tcp_server.cpp:264-268 | both publish the same audio key and name each other |
| `HandshakeAgreement.SessionStartsClean` | src/discovery/tcp_server.cpp:209-287 | the handshake leaves no byte behind and takes none of the session; frames are numbered from zero |
| `HandshakeAgreement.NoncesNeverRepeat` | src/discovery/tcp_server.cpp:218-256 | no nonce is used twice in a direction, the gate go-away included |
| `HonestAttempt.HonestAttemptConnects` | src/discovery/tcp_client.cpp:115-231 | for every chunking, delay and interleaving; known devices, first pairings and kicked devices alike: an attempt between honest sides that is at rest is in session on both, each with the other in its store, one that is not can be taken forward, and what is ahead of it never grows |
| `HonestAttempt.HonestDevicesConnect` | src/discovery/tcp_client.cpp:115-231 | from wherever an honest attempt has got to, a continuation that ends with both in session and in the store of each other |
| `HonestAttempt.AcquaintedNeverPair` | src/discovery/tcp_client.cpp:154-180 | two sides that know each other never pair in any attempt in which neither is told to forget, however it goes |
| `HonestAttempt.PairingIsForGood` | src/discovery/tcp_client.cpp:154-214 | an honest attempt that got through, then any later attempt of the two with those stores: neither side pairs |
| `EndToEnd.SessionDelivers` | src/discovery/secure_channel.cpp:47-106 | handshake and channel together, both directions: what either side accepts is a prefix of what the other sent since the handshake, each message sealed with the agreed key at the nonce its item bears |
| `Trust.ChannelMeansConnected` | src/discovery/tcp_server.cpp:264-273 | a shared channel implies Connected, for that peer |
| `Trust.ApprovedWhileWaiting` | src/discovery/tcp_server.cpp:186-194 | an approval the accept thread acts on was stored during this very wait |
| `Trust.StoreRemembersIff` | src/discovery/tcp_server.cpp:186-206 | over every run: the store holds a key for a device if and only if the last event on that entry was an approval of it acted on, or it was there at the start and nothing touched it |
| `Trust.StoreHoldsApprovedKeys` | src/discovery/tcp_server.cpp:196-206 | over whole runs nothing enters the store but keys approved while their fingerprint was shown |
| `Trust.ConnectedIsTrusted` | src/discovery/tcp_server.cpp:153-268 | Connected for a device and key only if this attempt found that key stored, or the user approved it during this attempt |
| `Trust.EveryConnectionWasApproved` | src/discovery/tcp_server.cpp:153-268 | over a whole life of the server every connected key was stored at the start or approved by fingerprint |
| `Trust.KickedUntilReapproved` | src/discovery/tcp_server.cpp:225-261 | a kicked device stays kicked until it is approved at the gate |
| `Trust.KickedNeedsApproval` | src/discovery/tcp_server.cpp:225-268 | once a kicked connection is off the screen, Connected does not show that device again without an approval stored after the gate cleared the old decision |
| `Trust.ConnectedStartsAnnouncing` | src/discovery/tcp_server.cpp:264-268 | Connected is published at one place only |
| `Trust.KickedIffAskedInSession` | src/discovery/tcp_server.cpp:264-407 | over everything from the announcement to the end of Connected: the device is kicked if and only if Disconnect was pressed while the accept thread was in the session loop |
| `Trust.DisconnectPressDecides` | src/discovery/tcp_server.cpp:264-407 | press by press: of the six places where the thread can be under Connected, a press kicks at one and does not at the other five |
| `Trust.EarlyDisconnectIsLost` | src/discovery/tcp_server.cpp:264-301 | an input: pressed under Connected before the flag is cleared, without effect |
| `Trust.LateDisconnectIsLost` | src/discovery/tcp_server.cpp:392-407 | an input: pressed under Connected after the flag was last looked at, without effect |
| `Trust.WhatTheServerSays` | src/discovery/tcp_server.cpp:246-399 | which session frames the server itself sends: the audio port on opening, a go-away exactly on a kick or a refused gate, the rest from other threads, each with the next nonce |
| `Crossing.ComputeBounds` | src/topology/crossing.cpp:13-23 | the loop computes `BoundsOf` |
| `Crossing.BoundsAreLeast` | src/topology/crossing.cpp:13-23 | the bounds cover every monitor, and every box that does covers them |
| `Crossing.RealMonitorsAreProper` | src/topology/crossing.cpp:13-23 | monitors with an area give bounds with an area |
| `Crossing.InvertIsInvolution` | src/topology/crossing.cpp:112-122 | `invert_entry` is an involution |
| `Crossing.InverseIsSamePlacement` | src/topology/crossing.cpp:112-122 | the inverted entry places the two desktops the same way |
| `Crossing.HandoffKeepsThePoint` | src/topology/crossing.cpp:25-46 | on the combined desktop a handoff keeps the crossing axis, overshoot included, and clamps the other to the shared stretch |
| `Crossing.OutAndBack` | src/app/input_pump.cpp:115-232 | out and back keeps the crossing axis and projects the other |
| `Crossing.ProjectedIsProjection` | src/topology/crossing.cpp:30-43 | the projection is idempotent, and the identity on the shared stretch |
| `InputHook.InputHook.OnEvent` | src/input/hook.cpp:87-160 | what an event adds to the pending frame, and whether it reaches the local OS |
| `InputHook.InputHook.ResumeAt` | src/input/hook.cpp:60-65 | lets events pass again and moves the anchor |
| `InputHook.InputHook.Poll` | src/input/hook.cpp:67-71 | drains the pending frame |
| `InputHook.HookCollects` | src/input/hook.cpp:87-160 | over any events between two polls: every button, wheel turn and key in order; as motion, the way of the cursor while events pass and the raw motion while not |
| `InputPump.InputPump.TrackKey` | src/app/input_pump.cpp:293-305 | refresh, append or erase, by virtual key |
| `InputPump.InputPump.TrackKeys` | src/app/input_pump.cpp:293-305 | a frame of key events, in order |
| `InputPump.InputPump.EscapeHeld` | src/app/input_pump.cpp:24-36 | the combination, in whatever order the keys went down |
| `InputPump.EscapeIs` | src/app/input_pump.cpp:24-36 | which keys the combination is made of |
| `InputPump.MiddleRounds` | src/app/input_pump.cpp:277-284 | the point resumed at is the middle, rounded toward zero |
| `InputPump.InputPump.ReleaseHeldKeysOnSlave` | src/app/input_pump.cpp:71-81 | a key-up for every held key, then an empty modifier mask |
| `InputPump.InputPump.ReleaseHeldKeysLocally` | src/app/input_pump.cpp:84-90 | a local key-up for every held key |
| `InputPump.InputPump.Deactivate` | src/app/input_pump.cpp:95-101 | hook off, Master owns, nothing held |
| `InputPump.InputPump.HandleMasterOwned` | src/app/input_pump.cpp:103-150 | `MasterOwned` in place, messages in order |
| `InputPump.InputPump.Forward` | src/app/input_pump.cpp:192-207 | position, buttons, wheel, keys, in this order; what that means for Slave is `InputDelivery.FrameSends` |
| `InputPump.InputPump.HandleSlaveOwned` | src/app/input_pump.cpp:152-236 | `SlaveOwned` in place, messages in order |
| `InputPump.InputPump.HandleFrame` | src/app/input_pump.cpp:307-337 | escape first, then the owner |
| `InputPump.InputPump.PumpInput` | src/app/input_pump.cpp:240-338 | one frame of `pump_input`, every branch |
| `Ownership.SuppressesWhileSlaveOwns` | src/app/input_pump.cpp:95-236 | in every reachable state the hook keeps exactly the physical events from the local OS while Slave owns the input; injected ones always pass |
| `Ownership.BoundedDrift` | src/app/input_pump.cpp:152-218 | Slave is always shown a point on its desktop; the tracked point stays in bounds or under 4 px past the one edge facing Master |
| `Ownership.NoBounceToMaster` | src/app/input_pump.cpp:163-218 | after a handoff to Slave, frames without motion never return control |
| `Ownership.SlowPushReturns` | src/app/input_pump.cpp:185-218 | every pixel of a slow push counts: control is back once the whole push clears the margin |
| `Ownership.RealDesktopsAreShown` | src/topology/crossing.cpp:13-23 | monitors with an area, on both sides, meet what the ownership results ask of a desktop |
| `RestAfterReturn.RestIsStableIff` | src/app/input_pump.cpp:163-235 | any return, any number of frames at rest: control stays with Master unless the point it settles at, waiting motion included, is on the edge that leads out again and Slave has a display |
| `RestAfterReturn.BounceToSlaveIff` | src/app/input_pump.cpp:167-235 | a return across the seam: for all n >= 2 control is with Master after n frames at rest unless the peer is left or right and there was no overshoot across the seam; then it is with Slave |
| `RestAfterReturn.MiddleIsClear` | src/app/input_pump.cpp:277-280 | the point resumed at is clear of every edge exactly if the desktop is at least 2 by 2 |
| `RestAfterReturn.EscapeStableIff` | src/app/input_pump.cpp:307-330 | a return by the emergency escape is stable for any number of frames, on every desktop at least 2 by 2; exactly when on a smaller one |
| `RestAfterReturn.DisplayLossStableIff` | src/app/input_pump.cpp:277-288 | a return for lack of displays is stable exactly unless the motion that still waits carries the middle onto the arranged edge and a display comes back |
| `InputDelivery.InputGoesToItsOwner` | src/app/input_pump.cpp:152-290 | in every run: what the frames have found for Slave, then what waits, is exactly what was reported while Slave owned the input, once and in order |
| `InputDelivery.FrameSends` | src/app/input_pump.cpp:185-331 | any frame, kind by kind: the position, every button, wheel turn and key it found for Slave, once and in order, then the key-ups of a return, then the modifiers |
| `InputDelivery.SlaveGetsItsInput` | src/app/input_pump.cpp:185-331 | over every run: the buttons, wheel turns and keys sent are, in order and once each, exactly those the frames found that were for Slave, and the key-ups of the returns at their places |
| `InputDelivery.FateOfInput` | src/app/input_pump.cpp:152-331 | what a frame does with it: all forwarded first; or, link or displays gone, none sent and all of it left to Master; or dropped by the escape |
| `InputDelivery.LeavesIff` | src/app/input_pump.cpp:103-150 | exactly when control goes to Slave: the cursor touches the arranged edge and has not just come back |
| `InputDelivery.ComesBackIff` | src/app/input_pump.cpp:152-218 | exactly when control comes back across the seam: on or past the edge that faces Master, at least four pixels off the desktop, not just come |
| `InputDelivery.TakeoverTracksIff` | src/app/input_pump.cpp:185-316 | whenever Master takes the input over -- hook going in, seam, escape, displays gone -- exactly when it does and exactly when tracked point and cursor then agree, both from the state before and what the frame finds |
| `InputDelivery.DropKeepsMotion` | src/app/input_pump.cpp:256-271 | motion that waits when the link drops still waits when the hook goes in again, and alone decides whether tracking then starts at the cursor |
| `InputDelivery.TracksTheCursorIff` | src/app/input_pump.cpp:103-150 | in every run: tracked point plus waiting motion is the real cursor, on the desktop, all the time Master owns the input, if and only if every takeover starts at the cursor |
| `Injector.Injector.Key` | src/input/inject.cpp:240-254 | the key code, the device and the shadow bit |
| `Injector.Injector.Sync` | src/input/inject.cpp:256-271 | the loop over the four left-hand modifiers |
| `Injector.SyncSetsShadow` | src/input/inject.cpp:256-271 | after a sync the shadow is the mask; only left-hand modifiers were touched |
| `Injector.CodesAreDistinct` | src/input/inject.cpp:167-194 | no two keys share a key code |
| `Injector.KeysKeepTheirNames` | src/input/inject.cpp:167-194 | which key is which: the base keys, the arrows and the navigation keys |
| `Injector.TheRestToo` | src/input/inject.cpp:167-194 | the keypad, menu and modifier keys with the extended prefix likewise |
| `Injector.NoOtherKeys` | src/input/inject.cpp:167-194 | no other key with the extended prefix has a code |
| `Injector.ModifiersAre` | src/input/inject.cpp:196-208 | which codes have a modifier bit, and which |
| `HeldKeys.CrossingOverSyncs` | src/app/input_pump.cpp:130-142 | on the way out the shadow on Slave becomes the physically held modifiers; exactly which left-hand keys that presses or releases; the cursor goes to the tracked position |
| `HeldKeys.TrackEffect` | src/app/input_pump.cpp:292-305 | the held list holds a key exactly if its last event was down, once |
| `HeldKeys.TrackListsLastPress` | src/app/input_pump.cpp:292-305 | the list holds a key as its last event pressed it, and not if that released it |
| `HeldKeys.ForwardAll` | src/app/input_pump.cpp:204-207 | forwarded and tracked together, a key down on Slave is on the list |
| `HeldKeys.ReleasesClear` | src/app/input_pump.cpp:71-75 | the releases take exactly the listed codes off Slave |
| `HeldKeys.ReturnLeaves` | src/app/input_pump.cpp:71-81 | exactly what a return leaves down on Slave |
| `HeldKeys.LeftControlStays` | src/input/inject.cpp:196-208 | why a left-hand modifier stays down |
| `HeldKeys.NoStuckKeys` | src/app/input_pump.cpp:61-92 | throughout an activation: Slave owns implies no key down on Master, Master owns implies no key down on Slave save synced modifiers |
| `HeldKeys.EveryDownKeyIsHeld` | src/app/input_pump.cpp:292-305 | no key is down anywhere that the pump does not list |
| `HeldKeys.ForwardedKeysAreDown` | src/app/input_pump.cpp:204-207 | after forwarding any key events a code is down exactly if the last event of its own key was down |
| `HeldKeys.TypedIsDown` | src/app/input_pump.cpp:192-231 | during any stay with Slave a key is down there exactly if its last event since the crossing was down |
| `HeldKeys.EscapeLeaves` | src/app/input_pump.cpp:307-331 | the escape leaves a key down exactly if it was let go in that very frame |
| `HeldKeys.KeyLostInEscape` | src/app/input_pump.cpp:307-331 | a frame on which it does |
| `Scenarios.LeftControlStaysDown` | src/input/inject.cpp:196-208 | a whole run from a new hook: right Control held over a crossing and back leaves left Control down on Slave |
| `Scenarios.MotionOutlivesDisplay` | src/app/input_pump.cpp:277-288 | a whole run: motion meant for Slave moves the tracked point off the cursor after a display-loss return, and control bounces back with nothing moving |
| `Scenarios.SeamBounces` | src/app/input_pump.cpp:167-235 | a whole run: a push up at the end of the seam returns control, and two frames at rest later Slave has it again |
| `Scenarios.FlungOffTheDesk` | src/app/input_pump.cpp:220-235 | a whole run: a fling of 2000 pixels returns control to a point 80 pixels off the far edge of the desktop of Master |
| `Scenarios.LinkDropMovesThePoint` | src/app/input_pump.cpp:256-271 | a whole run: motion waiting at a link drop moves the tracked point 500 pixels off the cursor when the link is back |
| `Scenarios.KeyStaysDownAfterEscape` | src/app/input_pump.cpp:307-331 | a whole run: C let go in the frame that completes the escape stays down on Slave |
| `Reconnect.SleepOut` | src/discovery/tcp_client.cpp:402-415 | slices total the backoff, or stop at the deadline or `stop()`, never far past either |
| `Reconnect.AfterAttempt` | src/discovery/tcp_client.cpp:393-418 | end, or wait and double |
| `Reconnect.Run` | src/discovery/tcp_client.cpp:379-420 | stays on schedule and ends only for a reason, on time |
| `Reconnect.WaitsDoubleUpToTen` | src/discovery/tcp_client.cpp:380-418 | the waits are 1, 2, 4, 8, 10, 10, ... seconds |
| `Reconnect.StretchBegins` | src/discovery/tcp_client.cpp:379-420 | a stretch, and so its deadline, counts from the end of the last attempt that was in session, or from the start |
| `Reconnect.StreakIsUnbroken` | src/discovery/tcp_client.cpp:379-420 | the streak behind a wait is exactly the failed attempts right before |
| `Reconnect.AttemptsBounded` | src/discovery/tcp_client.cpp:379-420 | one stretch without a connection has at most 5 + give_up/10 s attempts |
| `Reconnect.EndsSoonAfterDeadline` | src/discovery/tcp_client.cpp:389-417 | the run is over within one attempt, or one sleep overrun, of the deadline |
| `AudioSettings.MasterPump.Pump` | src/app/audio_pump.cpp:64-89 | mirror, or request on change |
| `AudioSettings.SlavePump.Pump` | src/app/audio_pump.cpp:205-226 | apply a new request once, then report a change |
| `AudioSettings.WhoSpeaks` | src/app/audio_pump.cpp:64-226 | exactly when each side sends, field by field of what counts as a change |
| `AudioSettings.MasterSeesSlave` | src/app/audio_pump.cpp:213-226 | once settled, Master view equals Slave settings, the format while enabled |
| `AudioSettings.SlaveEditStaysIff` | src/app/audio_pump.cpp:202-211 | exactly when a last Slave edit stays: nothing underway, or that skipped, or asking for the same |
| `AudioSettings.SettingsInTheEnd` | src/app/audio_pump.cpp:64-226 | from any moment of any connection on, with no more edits and everything settled: Slave has what was last asked for if anything was underway and not skipped, else what it had |
| `AudioSettings.MasterEditWinsIff` | src/app/audio_pump.cpp:71-88 | exactly which last Master edit takes effect, by the state at the edit and, for a number that may be skipped, whether Slave polls before the request has come |
| `AudioSettings.MasterEditForetold` | src/app/audio_pump.cpp:205-211 | unless the number of the request is two or more and the last one applied, that is known before the edit |
| `AudioSettings.FirstConnectionSkipsNothing` | src/app/audio_pump.cpp:205-211 | on the first connection of the Slave program nothing underway is skipped |
| `AudioSettings.RepeatedWishIsIgnored` | src/app/audio_pump.cpp:76-79 | a connection: Master asks, Slave changes it back, Master asks again, and all settles with the setting of Slave |
| `AudioSettings.SlaveEditIsOverwritten` | src/app/audio_pump.cpp:202-211 | a connection: a Slave edit while a request is on its way, which is then applied over it |
| `AudioSettings.StaleNumberSkipsRequest` | src/app/audio_pump.cpp:205-211 | a connection whose first request is taken for one applied on an earlier connection |
| `AudioSettings.PollDecides` | src/app/audio_pump.cpp:205-211 | two connections that differ in one poll: with it the second request is applied, without it neither is |
| `ClipboardSync.ClipboardPump.ApplyAndTrack` | src/app/clipboard_pump.cpp:12-19 | written, applied and seen are one content |
| `ClipboardSync.ClipboardPump.Sync` | src/app/clipboard_pump.cpp:22-59 | one call of `sync_clipboard`, every branch |
| `ClipboardSync.SendsExactlyNews` | src/app/clipboard_pump.cpp:22-59 | exactly what a call sends, and what it leaves as seen and applied |
| `ClipboardSync.SendsAreBounded` | src/app/clipboard_pump.cpp:21-59 | in any session each side sends at most 1 + its number of local copies |
| `ClipboardSync.AppliedIsNotSentBack` | src/app/clipboard_pump.cpp:46-53 | after an apply nothing is sent before the next local copy |
| `ClipboardSync.RecopyIsNotSent` | src/app/clipboard_pump.cpp:49-53 | content last applied is not sent even when copied again |
| `ClipboardSync.RecopyLeavesThemDifferent` | src/app/clipboard_pump.cpp:49-53 | a session in which that leaves the two clipboards different for good |
| `ClipboardSync.CopySpreadsIff` | src/app/clipboard_pump.cpp:44-57 | exactly which single copy onto a settled session, on either side, reaches the other |
| `ClipboardSync.SimultaneousCopiesSwap` | src/app/clipboard_pump.cpp:30-57 | two copies at the same time change places for good |
| `RollingWindow.SegmentIsGapFree` | src/app/audio_loss_window.h:42-46 | the segment is the longest run up to now without a gap longer than the window |
| `AudioLossWindow.AudioLossWindow.Record` | src/app/audio_loss_window.h:42-54 | the deque is the end of the full history, from the anchor on |
| `AudioLossWindow.AudioLossWindow.Evict` | src/app/audio_loss_window.h:52 | eviction stops with the newest old-enough sample in front |
| `AudioLossWindow.AudioLossWindow.Reset` | src/app/audio_loss_window.h:60-64 | forgets everything |
| `AudioLossWindow.AudioLossWindow.Reading` | src/app/audio_loss_window.h:77-87 | ready exactly when the segment is a window old; then the delta from the newest record at least a window old |
| `AudioLossWindow.AnchorSpansOneWindow` | src/app/audio_loss_window.h:26-41 | that delta spans at least one and less than two windows, and there is only one |
| `AudioLossWindow.ReadyHasAnchor` | src/app/audio_loss_window.h:52-53 | when ready there is such a record |
| `BufferDepthWindow.BufferDepthWindow.Record` | src/app/buffer_depth_window.h:15-28 | the deque is exactly the records no older than the window |
| `BufferDepthWindow.BufferDepthWindow.Reset` | src/app/buffer_depth_window.h:30-34 | forgets everything |
| `BufferDepthWindow.BufferDepthWindow.Maximum` | src/app/buffer_depth_window.h:38-42 | the maximum over the whole history, as far as it is recent |
| `BufferDepthWindow.RecentMaximumIsUnique` | src/app/buffer_depth_window.h:38-42 | that is one number |
| `RotatingLogger.RotatingLogger.constructor` | src/telemetry/logger.cpp:6-8 | at least one file |
| `RotatingLogger.RotatingLogger.Open` | src/telemetry/logger.cpp:16-28 | resumes, does not truncate |
| `RotatingLogger.RotatingLogger.Rotate` | src/telemetry/logger.cpp:33-46 | the descending renames move every file up by one, drop the oldest and start an empty one |
| `RotatingLogger.RotatingLogger.WriteLine` | src/telemetry/logger.cpp:48-58 | rotates first if needed, then appends the whole line |
| `RotatingLogger.RotateHolds` | src/telemetry/logger.cpp:33-58 | a rotation keeps the log a suffix of what was written |
| `RotatingLogger.LogKeepsASuffix` | src/telemetry/logger.cpp:33-58 | at most max_files files, together a whole-line suffix; within max_bytes unless a single line; nothing dropped or closed too early |

## Left out

- Real sockets, threads, `select`, UDP announcing, audio devices, libsodium, OS hooks and input injection calls: foreign code; what they may do is an input of the model.
- 32-bit wrap-around of packet numbers, message counters and coordinates, and the 64-bit nonce: all numbers are unbounded, so the results hold for runs that do not overflow them. The frame length prefix does wrap.
- Heartbeats, ping and round-trip times, monitor lists and other payloads of session messages: they are `Send` events with arbitrary frames; their timers only ever end a session, which may happen at any time in the model.
- The text and IP fields of the status line: only state, peer, fingerprint and audio key are kept.
- `TcpServer.TcpServer.ContinueRun`: is the accept thread cut into its atomic steps; the loop that repeats them is the run of `Trust` and `Handshake`, because other threads act in between.
- Handshake and Trust: sends on a live connection are taken to succeed; a failed send shows as a failed read of either side. `ChannelDelivery` has failed writes.
- `EndToEnd.SessionDelivers`: how a session message is packed into bytes is left open, and so is the seal of each key; both are parameters.
- `Wire.FingerprintNamesBoth`: takes the fingerprint as the whole hash; the screens show its first 24 bits, so two pairs of keys may look alike there.
- `Handshake.Lockstep`: is about one connection attempt; over many attempts each starts with fresh streams.
- `JitterBuffer.JitterBuffer.Pop`: is stated for a target depth of at least 1, because with 0 the first `pop` of an empty buffer dereferences `begin()` (src/audio/jitter_buffer.cpp:82-84); a buffer with 0 can be constructed. The program uses 8.
- Audio pushes and pops are atomic under the buffer's mutex; `DataCallback` takes the pushes that fall between two of its pops as a parameter.
- Mouse buttons held across a handoff: the source does not track them, so nothing keeps them from sticking.
- `HeldKeys.NoStuckKeys`: excludes the four left-hand modifiers and the emergency escape, where it is false; `ReturnLeaves` and `EscapeLeaves` say exactly when. It is about the Linux injector on Slave, with the link up and messages arriving in order.
- `InputDelivery.TracksTheCursorIff`: Master's monitors stay as they are for the run, every display has an area, and the OS keeps the cursor on Master's; that is foreign code.
- `Ownership.BoundedDrift`: excludes the single frame after a handoff, whose overshoot the code keeps.
- A Master on another system than Windows, where the hook is an inert stub, and a hook whose installation fails.
- `Reconnect.SleepOut`: a sleep of zero milliseconds, which the source asks for when the deadline is less than a millisecond away, is taken to let the clock move; how often the source would spin on it otherwise is not counted. Every other sleep may be exactly as long as asked for.
- Audio settings and clipboard: a session starts with the flags a disconnected frame leaves behind; a break shorter than one frame is not seen by the pumps.
- Capture, playback restarts and the start backoff in src/app/audio_pump.cpp, JPEG conversion of clipboard images, which does not give back what was written.
- Log rotation after failed file operations, and partial writes.
- Fixed-width codecs, hex, settings persistence, `RetryBackoff`, `track_reconnect`, `PeerTable`, auto-connect: one-branch facts and easy round trips. `decide_placement`: floating point.
