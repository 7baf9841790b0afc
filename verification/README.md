# A verified model of the Moonlight streaming core

A Dafny model of the parts of the streaming library in which state, arithmetic and protocol order matter, with proofs
of what they promise.

* **Audio.** A sender numbers opus frames, groups them in fours and adds two Reed-Solomon parity packets to each block
  (`gf256.dfy`, `reed_solomon.dfy`, `audio_packet.dfy`, `audio_blocks.dfy`, `audio_payloader.dfy`). A receiver reorders,
  repairs and emits them (`audio_buffers.dfy` gives its operations on values, `fec_queue.dfy` what they keep of the
  parity queue for arbitrary packets, `audio_depayloader.dfy` the class proved to do exactly that). `audio_transport.dfy`
  and `audio_recovery.dfy` put a network that loses, reorders and repeats packets in between and prove safety and
  completeness of whole runs; `audio_delivery.dfy` says what one datagram does, byte by byte, and what comes out of a
  receiver without loss repair; `audio_link.dfy` joins the two objects, with repair or without, encrypted or not.
  `audio_stream.dfy` adds the rule for giving up on a gap, with the pings of `ping.dfy`.
* **Pairing.** The client machine (`pairing.dfy`), all transcripts it can show to the outside (`pairing_runs.dfy`), and
  the outcome against an honest host (`pairing_host.dfy`).
* **Stream setup.** The RTSP client (`rtsp_client.dfy`), the setup machine above it (`stream_setup.dfy`), every run of it
  (`setup_runs.dfy`), and runs driven the way the drivers do it (`setup_driver.dfy`).
* **Link header.** The printer and the parser for ICE servers (`link_header.dfy`, `link_parser.dfy`).
* **UDP driver.** The future of the asynchronous driver (`stream_driver.dfy`).

Code that changes fields is a class here, each of whose methods is proved equal to a function on values; the theorems
are about those functions and so about every sequence of calls. Bytes are bit-vectors, sequence numbers wrap at
2^16 and timestamps at 2^32 as in a release build. `dafny verify dfyconfig.toml` checks the whole project.

Seven places where the code is not what one would expect, each kept as it is, with an input that shows it and the exact
condition:

* Row 0 of the parity packets, arriving twice, can take both parity slots of its block. Wrong bytes are stored exactly
  when besides two data packets of the block are missing and its two parities differ (`AudioTransport.Corrupts`, for one
  block `AudioTransport.ReconstructIsGenuine`, for whole runs `AudioTransport.StoresWhatWasSentExactlyIf`;
  `AudioRecovery.RepeatedParityCorrupts` is an input). Repeating row 1 does no harm to what is stored.
* Row 1 arriving twice and then row 0 can leave row 1 in front in the queue. A block of which four packets are held then
  stays unrepaired exactly when two of its data packets are missing (`AudioRecovery.RepairedExactlyIf`;
  `AudioRecovery.StuckRun` is a run that never plays a frame).
* Hashing goes through a 32-byte buffer into which the backends copy their digest, so pairing with a host older than
  generation 7 panics before it starts (`PairingHost.PairingStartsFromGenerationSeven`).
* The room reserved for an encrypted payload is larger than the ciphertext unless the frame length is a multiple of 16,
  and the parity encoder is handed both: an encrypted sender panics with the fourth frame exactly then
  (`AudioPayloader.AudioPayloader.PushFrame`, `AudioPayloader.FourthPushPanics`).
* The empty RTSP response that the setup calls impossible occurs exactly when a closed connection is reported after
  everything was connected (`SetupRuns.PanicsExactlyWhenConnectedAndClosed`, `SetupDriver.AnsweredThenClosedPanics`), and
  the RTSP client is found busy exactly as `SetupRuns.BusyExactlyIf` says. Neither happens to the drivers
  (`SetupDriver.DisciplinedSetupsGoWell`).
* A parameter value in a Link header that is not quoted, such as `rel=ice-server`, is read as empty, and the link is the
  last one of the list, whatever follows (`LinkHeader.UnquotedValueEndsTheList`). Quoted values of any characters are read
  (`LinkHeader.AnyLinksRoundTrip`).
* After a frame was played the audio stream asks for no wake-up, until the wait for the next one is over and it is called
  for another reason (`AudioStream.AudioStream.PollTimeout`, `AudioStream.TimeoutSetsClock`); nor does it ever ask for one
  when a ping is due. So a gap is given up, and a ping is queued, at the next datagram.

## Model

| member | source | states |
|---|---|---|
| ReedSolomon.PinnedParities | src/stream/proto/audio/payloader_tests.rs:157-164 | the first column of the repository's test vector, over the field with polynomial 0x11d |
| ReedSolomon.ParityMovesAlong | src/stream/proto/audio/mod.rs:134-147 | each row of the matrix adds up to one, so a byte added to all four data bytes is added to both parities |
| ReedSolomon.PinnedTestVector | src/stream/proto/audio/payloader_tests.rs:158-164 | the four payloads of the repository's test vector have both its parities, in all columns |
| ReedSolomon.CoefficientInvertible | src/stream/proto/audio/mod.rs:134-147 | every entry of the parity matrix has the reciprocal the decoder uses |
| ReedSolomon.MinorInvertible | src/stream/proto/audio/mod.rs:134-147 | so has every 2x2 minor |
| ReedSolomon.SolveTwoFinds | src/stream/proto/audio/depayloader.rs:279-295 | two erasures: elimination returns the two bytes the two parities were computed from |
| ReedSolomon.SolveTwoSolves | src/stream/proto/audio/depayloader.rs:279-295 | and solves the equations for every pair of parity bytes |
| ReedSolomon.RecoveredAreTheOnes | src/stream/proto/audio/depayloader.rs:279-295 | the recovered bytes are the only ones that fit the received parities |
| ReedSolomon.ReconstructInvertsEncode | src/stream/proto/audio/depayloader.rs:279-295 | from any four or more of the six shards of a block, of any length, decoding returns the block |
| ReedSolomon.ReconstructSolves | src/stream/proto/audio/depayloader.rs:279-295 | any four shards of one length at all are part of the block that decoding returns |
| ReedSolomon.FourShardsDetermineTheBlock | src/stream/proto/audio/mod.rs:134-147 | the 4+2 code is maximum distance separable: blocks that agree in four shards are equal |
| ReedSolomon.RepeatedRow | src/stream/proto/audio/depayloader.rs:223-253 | with the first parity in both slots decoding is right exactly if the two parities are equal |
| ReedSolomon.OneMissingNeedsOneParity | src/stream/proto/audio/depayloader.rs:279-295 | with one data shard missing and the first parity at hand the second slot does not matter, whatever it holds |
| ReedSolomon.ReconstructFailsExactlyIf | src/stream/proto/audio/depayloader.rs:279-295 | decoding is refused exactly with fewer than four shards, or with shards of different lengths |
| AudioPacket.SerializeRtp | src/stream/proto/audio/packet.rs:61-67 | writes the twelve header bytes at their place in the buffer and changes nothing else |
| AudioPacket.SerializeFec | src/stream/proto/audio/packet.rs:117-123 | the same for the FEC header |
| AudioPacket.RtpRoundTrip | src/stream/proto/audio/packet.rs:51-67 | reading and writing RTP headers are inverse in both directions |
| AudioPacket.FecRoundTrip | src/stream/proto/audio/packet.rs:101-123 | reading and writing FEC headers are inverse in both directions |
| AudioPacket.NumbersRead | src/stream/proto/audio/packet.rs:51-115 | numbers are read most significant byte first, by byte arithmetic, from any place of a datagram |
| AudioPacket.NumbersWritten | src/stream/proto/audio/packet.rs:61-123 | and written so |
| AudioBlocks.PacketsAreInStream | src/stream/proto/audio/payloader.rs:120-214 | every packet of the wire order belongs to a pushed frame or a full block |
| AudioBlocks.StreamGrows | src/stream/proto/audio/payloader.rs:120-214 | pushing a frame appends its packets and changes none sent before |
| AudioBlocks.DataOnTheWire | src/stream/proto/audio/payloader.rs:87-135 | a data packet byte by byte: 128, type 97, number, timestamp, zeros, payload |
| AudioBlocks.ParityOnTheWire | src/stream/proto/audio/payloader.rs:141-213 | a parity packet byte by byte: 128, type 127, a number after its block's, and a second header with row, 97, the block's number and timestamp; then the parity of the block's four payloads |
| AudioPayloader.CipherFillsTheRoom | src/stream/proto/audio/payloader.rs:87-117 | the ciphertext fits the reserved room, and fills it exactly for multiples of 16 |
| AudioPayloader.AudioPayloader.constructor | src/stream/proto/audio/payloader.rs:64-78 | a fresh sender has sent nothing |
| AudioPayloader.AudioPayloader.PushFrame | src/stream/proto/audio/payloader.rs:80-217 | everything queued or polled is exactly the stream of the frames pushed, for any number of frames; when each error occurs and what it leaves unchanged |
| AudioPayloader.FourthPushPanics | src/stream/proto/audio/payloader.rs:200-209 | with encryption and a frame length that is not a multiple of 16 the fourth push does panic |
| AudioPayloader.AudioPayloader.PollPacket | src/stream/proto/audio/payloader.rs:219-221 | packets come out in order, each once |
| AudioPayloader.AudioPayloader.Seal | src/stream/proto/audio/payloader.rs:104-118 | the payload is the frame or its ciphertext, and fits the room reserved |
| AudioPayloader.StaysInStep | src/stream/proto/audio/payloader.rs:120-135 | the wrapping counter, the remembered shards and the base timestamp stay those of the open block, across the wrap |
| AudioPayloader.BlockComplete | src/stream/proto/audio/payloader.rs:120-140 | after a fourth frame the remembered shards and timestamp are those of its block |
| AudioPayloader.MakeParityPackets | src/stream/proto/audio/payloader.rs:141-213 | the parity packets cover exactly the block's four payloads and name its first packet |
| AudioBuffers.StepIsMeasurable | src/stream/proto/audio/depayloader.rs:297-315 | whenever a block can be repaired one of its data packets after the first is there, so the timestamp lookup cannot fail |
| AudioBuffers.QueuedBaseFits | src/stream/proto/audio/depayloader.rs:255-277 | while decoding is on, base + 1 to base + 3 do not overflow 16 bits |
| AudioBuffers.InsertKeepsSorted | src/stream/proto/audio/depayloader.rs:456-474 | the queue stays sorted by base, whichever equal entry the binary search comes upon |
| AudioBuffers.FecFromIsSuffix | src/stream/proto/audio/depayloader.rs:136-140 | popping old entries off the front of the sorted queue is the same as filtering it |
| AudioBuffers.HandleKeepsReady | src/stream/proto/audio/depayloader.rs:333-487 | for arbitrary bytes: the queue stays sorted and its bases aligned while decoding is on |
| AudioBuffers.PollDecreases | src/stream/proto/audio/depayloader.rs:109-186 | a poll that emits uses up one of at most two wraps or moves forward, so draining ends from every state |
| AudioBuffers.AdvanceDecreases | src/stream/proto/audio/depayloader.rs:112-186 | so does every turn of the retry loop |
| AudioBuffers.PollPassesOverBadPackets | src/stream/proto/audio/depayloader.rs:109-194 | from every state and across the wrap: a poll passes over stored packets that do not decrypt and stops at the first that does or is missing by then |
| FecQueue.InsertKeepsOrder | src/stream/proto/audio/depayloader.rs:456-474 | for arbitrary packets with rows 0 and 1: one that is not queued yet keeps the queue strictly ordered by base and row, whichever equal entry the search comes upon |
| FecQueue.AtMostTwoPerBlock | src/stream/proto/audio/depayloader.rs:222-230 | an ordered queue has at most two entries for a block |
| FecQueue.OrderedSlots | src/stream/proto/audio/depayloader.rs:222-251 | and each slot is filled exactly if its row is queued, with that row |
| FecQueue.AnyRunIsOrdered | src/stream/proto/audio/depayloader.rs:109-487 | the same in every run over datagrams with any bytes in which no parity packet is repeated, with polls and skips between them |
| FecQueue.SlotsHoldRowsUnlessDoubled | src/stream/proto/audio/depayloader.rs:222-251 | with any repetition: the first slot only ever holds row 0, the second one row 1 exactly unless row 0 stands first twice |
| FecQueue.InsertKeepsZeroFirst | src/stream/proto/audio/depayloader.rs:456-474 | row 1 never gets in front of row 0; row 0 gets to the front if the block has at most one entry |
| FecQueue.PollPopsQueue | src/stream/proto/audio/depayloader.rs:136-140 | a poll only pops from the front of the queue |
| AudioDepayloader.AudioDepayloader.constructor | src/stream/proto/audio/depayloader.rs:91-106 | a fresh receiver is empty and expects number 0 |
| AudioDepayloader.AudioDepayloader.PollFrame | src/stream/proto/audio/depayloader.rs:109-194 | terminates, and its new state and frame are those of the value-level poll |
| AudioDepayloader.AudioDepayloader.Cleanup | src/stream/proto/audio/depayloader.rs:128-140 | what the block before the current number still needs is kept, the rest forgotten |
| AudioDepayloader.AudioDepayloader.PopFecBefore | src/stream/proto/audio/depayloader.rs:136-140 | popping from the front leaves exactly the entries from the minimum on |
| AudioDepayloader.AudioDepayloader.TrySkipSamples | src/stream/proto/audio/depayloader.rs:199-212 | moves to the least stored number not before the current one, if there is one |
| AudioDepayloader.AudioDepayloader.FindParity | src/stream/proto/audio/depayloader.rs:222-251 | the block's first two queued packets in their slots, or none |
| AudioDepayloader.AudioDepayloader.TryReconstructFecBlock | src/stream/proto/audio/depayloader.rs:214-330 | slot choice, erasure decoding and timestamp step as on values; only missing packets are added |
| AudioDepayloader.AudioDepayloader.StoreMissing | src/stream/proto/audio/depayloader.rs:317-327 | packets already stored are kept, missing ones get their shard and timestamp |
| AudioDepayloader.AudioDepayloader.SearchFec | src/stream/proto/audio/depayloader.rs:456-474 | binary search: an entry of the block, or the one place where it belongs |
| AudioDepayloader.AudioDepayloader.Enqueue | src/stream/proto/audio/depayloader.rs:456-474 | inserts at the place given by base and shard index |
| AudioDepayloader.AudioDepayloader.HandlePacket | src/stream/proto/audio/depayloader.rs:333-487 | every branch of receiving a datagram, with its errors, as on values |
| AudioDepayloader.AudioDepayloader.HandleDataPacket | src/stream/proto/audio/depayloader.rs:375-405 | stale data is dropped, other data stored and its block tried, as on values; AudioDelivery.DataDatagramIsStored and AudioDelivery.PlaysUpToFirstLoss say what that means with loss repair on and off |
| AudioDepayloader.AudioDepayloader.HandleFecPacket | src/stream/proto/audio/depayloader.rs:406-486 | a misaligned base switches decoding off, an old one is dropped, others are queued and their block tried |
| AudioDelivery.DataDatagramIsStored | src/stream/proto/audio/depayloader.rs:379-405 | for any state, repair on or off, and any bytes of type 97: a number not before the current one is stored with the datagram's timestamp and payload, everything else stored is kept, and nothing is added but packets of a block under repair; an older one changes nothing |
| AudioDelivery.ParityDatagramIsQueued | src/stream/proto/audio/depayloader.rs:406-477 | for any bytes of type 127: queued, with its fields read at their places, exactly if decoding is on and the current number is at most six after its base; a base that is not a multiple of four switches decoding off in every case |
| AudioDelivery.OtherDatagramIsIgnored | src/stream/proto/audio/depayloader.rs:333-374 | any other datagram changes nothing, and is an error exactly below twelve bytes |
| AudioDelivery.DataDatagramFailsExactlyIf | src/stream/proto/audio/depayloader.rs:393-405 | a data packet is refused exactly if its block has four shards at hand, misses data, and the shards differ in length; it stays stored |
| AudioDelivery.ParityDatagramFailsExactlyIf | src/stream/proto/audio/depayloader.rs:476-477 | and so is a parity packet |
| AudioDelivery.PollForgets | src/stream/proto/audio/depayloader.rs:127-140 | after a poll nothing is held that is more than four numbers old, and a poll that waits forgets nothing else |
| AudioDelivery.RestoredTimestampsAreInterpolated | src/stream/proto/audio/depayloader.rs:297-327 | for any timestamps, even or not: a rebuilt packet gets the block's timestamp plus its place times the average step to the first packet present, rounded down; the block's own if that packet is older |
| AudioDelivery.PlaysUpToFirstLoss | src/stream/proto/audio/depayloader.rs:109-405 | without loss repair, for every run with any loss, order and repetition between polls: after draining exactly the frames before the first one whose packet was never delivered have come out, each with its own timestamp and bytes; all of them if every packet was delivered |
| AudioDelivery.PlaysAtLeastUpToFirstLoss | src/stream/proto/audio/depayloader.rs:109-487 | with repair at least those come out, in order |
| AudioTransport.ParityNamesItsBlock | src/stream/proto/audio/payloader.rs:120-214 | for any number of frames a parity packet carries an aligned base, which is the number of its block's first data packet, and that packet's timestamp |
| AudioTransport.StreamKeepsDecoderOn | src/stream/proto/audio/depayloader.rs:426-441 | so no packet of any such stream makes a receiver in any state switch decoding off |
| AudioTransport.SlotsAreRight | src/stream/proto/audio/depayloader.rs:223-253 | with row 0 first, each parity of a block is put in its own slot exactly if it is queued |
| AudioTransport.SlotsAreGenuine | src/stream/proto/audio/depayloader.rs:222-251 | with any repetition the slots hold packets of the block, in their places unless row 0 is doubled |
| AudioTransport.ShardsAreGenuine | src/stream/proto/audio/depayloader.rs:255-277 | the shards at hand are those of the block that was sent, but for row 0 in the place of row 1 |
| AudioTransport.DecodedExactlyIf | src/stream/proto/audio/depayloader.rs:279-295 | what is decoded is the block exactly unless two data packets are missing, row 0 has both slots and the parities differ |
| AudioTransport.StepIsExact | src/stream/proto/audio/depayloader.rs:297-315 | the step of an evenly timed block is found exactly, whichever packet it is measured at |
| AudioTransport.RestoredTimestampsAreExact | src/stream/proto/audio/depayloader.rs:317-327 | rebuilt packets get the timestamp they were sent with |
| AudioTransport.ReconstructIsGenuine | src/stream/proto/audio/depayloader.rs:214-330 | for any queue of genuine parity packets and any data: repairing never fails, completes the block exactly if four shards are at hand, and leaves only what was sent, with timestamps if the block is evenly timed, exactly unless it goes wrong as above |
| AudioTransport.RunIsSafe | src/stream/proto/audio/depayloader.rs:109-487 | what every run without such a step keeps of the buffers and of the output |
| AudioTransport.StoresWhatWasSentExactlyIf | src/stream/proto/audio/depayloader.rs:109-487 | for every run with any loss, order and repetition: the receiver only ever holds what was sent if and only if no step goes wrong |
| AudioTransport.RowZeroOnceIsHarmless | src/stream/proto/audio/depayloader.rs:223-251 | no step does if no parity packet of row 0 is repeated |
| AudioTransport.OutputIsSubsequence | src/stream/proto/audio/depayloader.rs:109-487 | under loss, reordering, polls, skips and any repetition but of row 0: nothing fails, and what comes out is a strictly increasing subsequence of what went in, byte for byte, and with its exact timestamp for every frame of an evenly timed block |
| AudioTransport.OutputIsPrefix | src/stream/proto/audio/depayloader.rs:109-487 | without skips it is a prefix |
| AudioRecovery.RunIsUp | src/stream/proto/audio/depayloader.rs:109-487 | every run holds all that was delivered of the open blocks, and repairs each as soon as four packets are held, unless row 0 is repeated or row 1 before row 0 |
| AudioRecovery.StuckBlockLacksPackets | src/stream/proto/audio/depayloader.rs:375-405 | a receiver that waits inside a block holds fewer than four of its packets |
| AudioRecovery.EveryFrameComesOut | src/stream/proto/audio/depayloader.rs:109-487 | completeness: with four of six packets of each of the first blocks delivered, in any order, between polls and with such repetition, draining yields all their frames |
| AudioRecovery.NoRepeatIsGentle | src/stream/proto/audio/depayloader.rs:456-474 | a network that repeats no parity packet is a case of that |
| AudioRecovery.RepairedExactlyIf | src/stream/proto/audio/depayloader.rs:214-330 | for any queue of genuine parity packets: a block with four held packets is complete after an attempt exactly unless two data packets are missing and row 1 stands in front |
| AudioRecovery.StuckRun | src/stream/proto/audio/depayloader.rs:456-474 | a run that delivers four packets of the first block and, however often polled, plays nothing |
| AudioRecovery.RepeatedParity | src/stream/proto/audio/depayloader.rs:223-253 | one such run: two data packets and row 0 twice, for every stream |
| AudioRecovery.RepeatedParityCorrupts | src/stream/proto/audio/depayloader.rs:456-474 | four frames for which that stores wrong bytes |
| AudioRecovery.LateTriggerReach | src/stream/proto/audio/depayloader.rs:395-401 | the saturating end of a block's range leaves out one number only, 65535 |
| AudioLink.SendAll | src/stream/proto/audio/payloader.rs:80-221 | the sender object, given the frames, hands out exactly the stream of the frames, each sealed under its own number if the stream is encrypted |
| AudioLink.Relay | src/stream/proto/audio/depayloader.rs:109-487 | sender object, lossy network, receiver object, with repair or without, encrypted or not: what is played is a prefix of the frames pushed, byte for byte, with their timestamps, and no shorter than what arrived in a row; with repair it includes every block of which four packets arrived; without, exactly the frames that arrived in a row |
| AudioStream.AudioStream.constructor | src/stream/proto/audio/mod.rs:81-107 | the wait is four packet durations and 10 ms, and the first ping is queued |
| AudioStream.AudioStream.PollDepayloader | src/stream/proto/audio/mod.rs:110-119 | terminates and queues every frame that is ready, in order |
| AudioStream.AudioStream.PollEvent | src/stream/proto/audio/mod.rs:167-169 | frames are handed over in order, each once |
| AudioStream.AudioStream.HandleTimeout | src/stream/proto/audio/mod.rs:190-210 | a ping is queued exactly if one is due, 500 ms after the start for each one queued; skips only when overdue, then drains |
| AudioStream.AudioStream.HandleReceive | src/stream/proto/audio/mod.rs:171-188 | datagrams from elsewhere change nothing; a bad one is an error without a timeout or a ping; the others are handled, and then what a timeout does |
| AudioStream.AudioStream.PollTransmit | src/stream/proto/audio/mod.rs:152-157 | the next ping, by its number, addressed to the host |
| AudioStream.AudioStream.PollTimeout | src/stream/proto/audio/mod.rs:159-165 | when the stream asks to be called again |
| AudioStream.Drive | src/stream/proto/audio/mod.rs:151-210 | the object over any run of calls: pings 0, 1, 2 ... go to the host in order, each once, queued at the times of PingTimes told exactly of timeouts and accepted datagrams; the events returned are the first of the frames that the receiver plays in the calls it gets to see |
| AudioStream.GapsAreGivenUpInTime | src/stream/proto/audio/mod.rs:171-210 | over any calls with any bytes, times and encryption: a number is left out only after the wait since the last frame, and what is passed over otherwise is a stored packet that did not decrypt |
| AudioStream.NewStreamIsTimed | src/stream/proto/audio/mod.rs:81-119 | the same from the start, with the wait the constructor computes; without encryption nothing is passed over |
| AudioStream.TimeoutPlaysExactlyIf | src/stream/proto/audio/mod.rs:190-210 | which packet a timeout looks at, and that it plays it, passes it over and goes on, or plays nothing, exactly as it decrypts, does not, or is missing |
| AudioStream.ReceivedFrameIsPlayed | src/stream/proto/audio/mod.rs:171-188 | a datagram with the frame waited for, if it decrypts, is played at once with its timestamp and bytes, from any state |
| AudioStream.DrainTakesAll | src/stream/proto/audio/mod.rs:110-119 | and nothing that could be played next is left behind |
| AudioStream.TimeoutSetsClock | src/stream/proto/audio/mod.rs:190-210 | the wait counts from the last frame played, and a wake-up is asked for exactly if no frame was played since the wait was last over |
| Ping.PingPacketRoundTrip | src/stream/proto/packet.rs:27-44 | reading and writing ping packets are inverse in both directions |
| Ping.PingOnTheWire | src/stream/proto/packet.rs:41-44 | the payload and then the number, most significant byte first; or the letters PING |
| Ping.PingSender.constructor | src/stream/proto/ping.rs:33-44 | ping 0 is queued at the start |
| Ping.PingSender.AdvancePacket | src/stream/proto/ping.rs:72-81 | queues the next ping and moves the deadline on by 500 ms |
| Ping.PingSender.PushPacket | src/stream/proto/ping.rs:46-70 | queues the ping with that number, or the legacy bytes |
| Ping.PingSender.HandleTimeout | src/stream/proto/ping.rs:91-100 | a ping is queued exactly if start + 500 ms for each one queued is over; polled and queued packets are pings 0, 1, 2 ... in order |
| Ping.PingSender.PollTransmit | src/stream/proto/ping.rs:87-89 | pings come out in order, each once |
| Ping.PingsAreSlowEnough | src/stream/proto/ping.rs:72-100 | over any times told, in any order: ping k is never queued before k half seconds are over |
| Ping.PingsKeepUp | src/stream/proto/ping.rs:72-100 | and if the sender is told in turn that 1, 2, 3 ... half seconds are over, with any times between, there are as many pings besides the first |
| Pairing.SaltedPinsDiffer | src/http/pair/client.rs:520-532 | another salt or another PIN is another input of the hash; Pairing.KeysTellApart carries that to the key |
| Pairing.KeyIsTheDigestsHead | src/http/pair/client.rs:520-566 | the key is the first 16 bytes of the digest of the salt and the four digits in ASCII exactly if that digest has 32 bytes; otherwise the error or the panic |
| Pairing.KeysTellApart | src/http/pair/client.rs:551-566 | for digests that do not collide in their first half on the two inputs: keys are equal if and only if salt and PIN are |
| Pairing.NewClientKeepsWhatItIsGiven | src/http/pair/client.rs:142-171 | a pairing starts exactly with such a digest, by SHA-256 from generation 7 on and SHA-1 before, and keeps certificate, key, salt and secret as given |
| Pairing.ClientPairing.New | src/http/pair/client.rs:142-171 | key derivation first, its failure the only one; the client made is the one of Pairing.NewClientKeepsWhatItIsGiven |
| Pairing.ClientPairing.constructor | src/http/pair/client.rs:160-171 | starts before phase 1 |
| Pairing.ClientPairing.HandleResponse | src/http/pair/client.rs:174-390 | every branch of every phase, and which state an error leaves behind |
| Pairing.ClientPairing.VerifyServer | src/http/pair/client.rs:304-349 | signature first, then the hash opened with the certificate's signature |
| Pairing.ClientPairing.PollOutput | src/http/pair/client.rs:396-517 | the request of each phase, and which state an error leaves behind |
| PairingRuns.TranscriptsAreTheProtocol | src/http/pair/client.rs:174-517 | for arbitrary calls, responses and backend results: a transcript occurs if and only if it follows the protocol |
| PairingRuns.TrustedCertificateIsProven | src/http/pair/client.rs:174-517 | a certificate is only handed out as the host's after it was offered in phase 1, verified the host's secret, and that secret opened the phase 2 hash; https and success only after that |
| PairingRuns.FailureIsFinal | src/http/pair/client.rs:46-47 | after any failed call no later call succeeds |
| PairingRuns.PollFailsAs | src/http/pair/client.rs:396-517 | when a poll in a genuine pairing panics, exactly, and that it otherwise fails only with the backend |
| PairingRuns.ResponseFailsAs | src/http/pair/client.rs:174-390 | which error each response brings: a wrong PIN exactly if the host's secret is signed but does not open the hash sent before |
| PairingHost.PairingStartsFromGenerationSeven | src/http/pair/client.rs:534-566 | with hashes of their standard lengths a pairing can be started exactly for major version 7 and later; otherwise it panics |
| PairingHost.PairsExactlyIfBothConvinced | src/http/pair/client.rs:233-348 | with an honest host and any two keys: paired exactly if each side finds its own challenge in the other's commitment |
| PairingHost.AfterPhase3 | src/http/pair/client.rs:322-349 | and if the client does not, it reports a wrong PIN |
| PairingHost.SamePinPairs | src/http/pair/client.rs:142-517 | with the same PIN an honest host of generation 7 or later always gets paired; the phase 3 commitment is opened by the phase 4 secret |
| PairingHost.WrongPinNeverPairs | src/http/pair/client.rs:322-349 | for any number of turns, if the PINs differ: no certificate is trusted, nothing sent over https, no success, and a wrong PIN is reported at the third response; for a block cipher and a digest without the collisions named |
| PairingHost.PairedExactlyIfPinsAgree | src/http/pair/client.rs:142-517 | so the client reports success if and only if the PIN typed is the one the host shows |
| PairingHost.LawsCanBeMet | src/http/pair/mod.rs:273-301 | a backend with all these laws exists |
| RtspClient.RtspClient.constructor | src/stream/proto/rtsp/client.rs:127-141 | nothing to send, number 1 |
| RtspClient.RtspClient.SendInner | src/stream/proto/rtsp/client.rs:164-173 | refused exactly while a request is pending or a connection is in use |
| RtspClient.RtspClient.Send | src/stream/proto/rtsp/client.rs:151-156 | a reply is expected only if the request was accepted |
| RtspClient.RtspClient.SendNoResponse | src/stream/proto/rtsp/client.rs:158-163 | no reply is expected, if the request was accepted |
| RtspClient.RtspClient.HandleReceive | src/stream/proto/rtsp/client.rs:177-179 | data is collected |
| RtspClient.RtspClient.HandleDisconnected | src/stream/proto/rtsp/client.rs:180-250 | a reply is read only if one is expected; what each error leaves behind |
| RtspClient.RtspClient.PollOutput | src/stream/proto/rtsp/client.rs:255-335 | connect, write, wait, hand over the reply or its absence |
| RtspClient.ReplyIsTakenExactlyIf | src/stream/proto/rtsp/client.rs:180-250 | a reply expected is taken exactly if it can be read, carries the request's number and has a status from 200 to 299; what is left behind, and when the number goes up |
| RtspClient.ReplyFailsAs | src/stream/proto/rtsp/client.rs:205-238 | and which error it brings otherwise |
| RtspClient.OneExchange | src/stream/proto/rtsp/client.rs:151-335 | from rest to rest: request written under the current number over a new connection, old data forgotten, the reply in any pieces, handed over when the host closes; the next request has the next number |
| StreamSetup.StreamSetup.constructor | src/stream/proto/mod.rs:237-325 | the first request may go unanswered |
| StreamSetup.StreamSetup.HandleReply | src/stream/proto/mod.rs:338-677 | what each state does with a reply, with its errors, as on values; SetupRuns.StreamsStartAsReplied and SetupRuns.FailsExactlyAs pin it |
| StreamSetup.StreamSetup.HandleSilence | src/stream/proto/mod.rs:678-697 | a missing reply moves on in two states and panics in all others |
| StreamSetup.StreamSetup.SendNext | src/stream/proto/mod.rs:698-799 | the next request of each state, connected, or wait |
| StreamSetup.StreamSetup.PollOutput | src/stream/proto/mod.rs:328-799 | the loop ends after at most three passes and does what they do |
| StreamSetup.StreamSetup.HandleInput | src/stream/proto/mod.rs:802-823 | the clock and the connection as told |
| StreamSetup.PassComesCloser | src/stream/proto/mod.rs:330-796 | why the loop ends |
| SetupRuns.StreamsStartInOrder | src/stream/proto/mod.rs:328-799 | in every run audio, video, microphone if asked for and control start in that order, each at most once, and Connected only after all of them, so the unwrapping in src/stream/std/mod.rs:210-219 holds |
| SetupRuns.StepKeepsInOrder | src/stream/proto/mod.rs:328-823 | no call ever moves the setup back, or changes its session |
| SetupRuns.PanicsExactlyIf | src/stream/proto/mod.rs:328-799 | a poll in any run panics exactly with no request to send after a failed encoding, or when told of a closed connection after Connected; session and SDP are always there where unwrapped |
| SetupRuns.FailedEncodingThenPanics | src/stream/proto/rtsp/client.rs:269-321 | the first does occur: a request that fails to encode, then a poll |
| SetupRuns.PanicsExactlyWhenConnectedAndClosed | src/stream/proto/mod.rs:678-697 | while requests can be encoded only the latter is left |
| SetupRuns.ClosedWhenConnectedPanics | src/stream/proto/mod.rs:678-697 | every connected run that is told of a closed connection panics |
| SetupRuns.BusyExactlyIf | src/stream/proto/rtsp/client.rs:164-167 | in every run, exactly when a call finds the RTSP client already sending: closed before the pending request was sent in a state that answers with a request, or done with its reply while the client still waits for one |
| SetupRuns.LaterStreamsShareTheSession | src/stream/proto/mod.rs:443-792 | the audio stream's session becomes the setup's, and every later stream is started by a reply of that session |
| SetupRuns.StreamsAgreeWithTheSdp | src/stream/proto/mod.rs:343-672 | in every run audio, microphone and control are started with the encryption the SDP asks for, FEC by the server version, and video on the port the announced SDP names |
| SetupRuns.SdpComesFromDescribe | src/stream/proto/mod.rs:343-372 | in every run the SDP is what the DESCRIBE reply gave, but for the video port, filled in when the video stream starts |
| SetupRuns.StreamsStartAsReplied | src/stream/proto/mod.rs:381-677 | in every run each stream is started by a poll with a reply at hand: on the port that reply names, else 48000 for audio, 47998 for video and control, 47996 for the microphone; with that reply's connect data for control; and at the last time the setup was told. A wait is for one second from then |
| SetupRuns.ReplyAtHandWasRead | src/stream/proto/rtsp/client.rs:180-250 | and that reply was read when the connection was closed, out of all bytes received since the last request was written, with the number expected and a status of success |
| SetupRuns.FailsExactlyAs | src/stream/proto/mod.rs:338-677 | in every run: a poll fails over an unreadable reply, a foreign session or an unencodable request exactly under the conditions named, and otherwise only because the client is busy |
| SetupRuns.EarlyCloseFindsTheClientBusy | src/stream/proto/mod.rs:678-688 | such a run: a connection reported closed before the first request was sent |
| SetupDriver.DisciplinedSetupsGoWell | src/stream/std/mod.rs:106-164 | if network input only comes while the setup waits, it never panics, never finds the RTSP client busy, and waits only for an answer |
| SetupDriver.TidyPoll | src/stream/proto/mod.rs:328-799 | and what it writes is the encoding of the request its state stands for |
| SetupDriver.AnsweringHostConnects | src/stream/proto/mod.rs:328-799 | completeness: a host that answers every request of one session gets the setup connected without an error |
| SetupDriver.AnsweredThenClosedPanics | src/stream/proto/mod.rs:678-697 | a run with such a host that gets connected, is told of a closed connection, and panics |
| LinkHeader.Quote | src/webrtc/header.rs:40-55 | puts a backslash before every quote and backslash, and quotes around |
| LinkHeader.Print | src/webrtc/header.rs:16-38 | a header with its parameters |
| LinkHeader.QuotedBodyRoundTrip | src/webrtc/header.rs:189-217 | an escaped text of any characters is read back, and nothing behind it is touched |
| LinkHeader.ParametersRoundTrip | src/webrtc/header.rs:142-187 | any printed parameters are read back, with their names in lower case |
| LinkHeader.ParameterRoundTrip | src/webrtc/header.rs:145-176 | white space around the name, the equals sign and the quoted value does not matter, nor does the case of the name |
| LinkHeader.AnyLinksRoundTrip | src/webrtc/header.rs:103-140 | printed links of any relation, with any parameters and values, are read back |
| LinkHeader.FirstValueIs | src/webrtc/header.rs:72-83 | the value under a name is the first one there, or none exactly if there is none |
| LinkHeader.ServersAreTheIceLinks | src/webrtc/header.rs:59-95 | a link is a server exactly if one of its parameters is rel with the value ice-server |
| LinkHeader.OtherLinksAreLeftOut | src/webrtc/header.rs:59-95 | links of other relations are left out of what is parsed, wherever they stand |
| LinkHeader.NamesInCapitals | src/webrtc/header.rs:174-176 | a server whose parameter names are in capitals is read |
| LinkHeader.UnclosedQuoteIsReadToTheEnd | src/webrtc/header.rs:189-217 | a quoted string that is not closed is read to the end |
| LinkHeader.NoLinkEndsTheList | src/webrtc/header.rs:103-140 | what does not start with an angle bracket, or is not closed by one, ends the list without an error |
| LinkHeader.UnquotedValueEndsTheList | src/webrtc/header.rs:159-184 | a value that is not quoted is read as empty and ends the list, whatever follows |
| LinkHeader.LinksRoundTrip | src/webrtc/header.rs:103-140 | headers joined by ", " are read back as links |
| LinkHeader.ParsedTargetsAreClean | src/webrtc/header.rs:103-140 | no target the parser reads contains a closing angle bracket |
| LinkHeader.RoundTrip | src/webrtc/header.rs:16-140 | printing, joining and parsing gives back the list if and only if no url contains a closing angle bracket |
| LinkParser.Cursor.ParseLinkHeader | src/webrtc/header.rs:103-140 | the cursor-driven parser terminates on every string and computes the parse |
| LinkParser.Cursor.ParseOneLink | src/webrtc/header.rs:108-136 | one turn of its loop: a link and the comma after it, or the end of the list |
| LinkParser.Cursor.ParseParameters | src/webrtc/header.rs:142-187 | the same for parameters |
| LinkParser.Cursor.ParseQuotedString | src/webrtc/header.rs:189-217 | the same for quoted strings |
| LinkParser.Cursor.ParseParameterValue | src/webrtc/header.rs:159-172 | the same for a value |
| LinkParser.Cursor.TakeWhile | src/webrtc/header.rs:230-243 | splits off the longest prefix that meets the condition |
| LinkParser.Cursor.TakeWhitespaces | src/webrtc/header.rs:219-221 | drops leading white space |
| LinkParser.Cursor.Take | src/webrtc/header.rs:225-229 | takes one character, if there is one |
| LinkParser.Find | src/webrtc/header.rs:72-83 | the first value under a name |
| LinkParser.Parse | src/webrtc/header.rs:59-95 | the same for the whole header |
| StreamDriver.StreamDriver.constructor | src/stream/tokio/driver.rs:36-49 | the slot is empty, nothing sent |
| StreamDriver.StreamDriver.Drive | src/stream/tokio/driver.rs:51-63 | making a future changes nothing |
| StreamDriver.StreamDriver.Write | src/stream/tokio/driver.rs:92-131 | with q the slot and the stream's queue: nothing is sent unless the socket is writable; else exactly the first packets of q up to the first refusal, the rest staying in order; it fails exactly if a packet is left and the next result is an error |
| StreamDriver.StreamDriver.SendWaiting | src/stream/tokio/driver.rs:104-129 | the inner loop: sends until the first refusal or the end of the queue |
| StreamDriver.DriveFuture.constructor | src/stream/tokio/driver.rs:58-62 | a future holds the driver and a deadline, nothing to lose |
| StreamDriver.DriveFuture.Pass | src/stream/tokio/driver.rs:91-187 | one pass, exactly: write, then a waiting event, then a datagram handed to the stream, then the deadline; conservation in every outcome |
| StreamDriver.DriveFuture.PollOnce | src/stream/tokio/driver.rs:88-188 | a poll is its passes, exactly, until one of them ends it; events in order, each once |
| StreamDriver.PollIsExplained | src/stream/tokio/driver.rs:88-188 | for any socket, timer and stream: a poll is told by the number of turns the stream has heard of; packets sent and waiting, events and what was heard are those from before and exactly those turns', in order; and why the poll ended |
| StreamDriver.FirstTurnSends | src/stream/tokio/driver.rs:92-131 | what waits is sent at once as far as the socket takes it |
| StreamDriver.FirstTurnIsHeard | src/stream/tokio/driver.rs:138-187 | with no event waiting and no send error, a datagram or else an elapsed deadline is handed to the stream at once |
| StreamDriver.WillingSocketSendsAll | src/stream/tokio/driver.rs:88-188 | with a socket that takes everything, a poll that has to wait leaves nothing unsent, answers included |

## Left out

- AudioTransport.OutputIsSubsequence: streams are shorter than 65536 frames, because the receiver compares sequence numbers without regard to the wrap; the sender's refinement, the termination of polling and the timing of gaps hold across it.
- AudioRecovery.EveryFrameComesOut: parity packets are not repeated so that row 0 comes twice, or row 1 twice before it; what such repetition does is the subject of AudioTransport.StoresWhatWasSentExactlyIf and AudioRecovery.RepairedExactlyIf.
- Pairing.ClientPairing.New: salt, challenge and secret are given; a backend that panics on bad input counts as an error.
- StreamSetup.StreamSetup.constructor: parsing the address and the RTSP url, the client version and the packet size for remote streaming, and the errors of parsing.
- StreamSetup.StreamSetup.HandleReply: the host features other than the microphone, and what a reply contains is a choice of the environment reduced to session, port, connect data and the SDP fields that are used; generating the SDP is one step that may fail.
- SetupRuns.PanicsExactlyIf: the `expect`s on SDP fields and on creating and filling the control stream (src/stream/proto/mod.rs:407-411, 480, 499-507, 615-640) are taken to hold; the session description that is generated always has those fields (src/stream/proto/sdp/client.rs:292-296, 451-455).
- LinkParser.Cursor.ParseLinkHeader: parameter names are lower-cased for ASCII letters only.
- LinkParser.Cursor.ParseParameters: parameter names are lower-cased for ASCII letters only.
- StreamDriver.DriveFuture.Pass: the socket, the timer and the handlers of the stream are choices of the environment, one for each pass.
- The code of the `fec_rs` crate is not part of this model: encoding is the matrix product, decoding a solver for one or two erasures, shards of different lengths are an error of both, and empty shards are shards like any other.
- PairingHost.WrongPinNeverPairs: that digests of different PINs differ in their first half, and that a digest sealed under one key does not open as a digest under another, are assumed of the backend; no digest or cipher can have the first for all inputs, so it is assumed for the PINs under the salt in use.
- AES, hashes, signatures and certificates are abstract functions; their laws are assumed only in `pairing_host.dfy`.
- The host of `pairing_host.dfy` is not in the repository; it is what the client's checks are written for.
- Overflow checks of debug builds: arithmetic on timestamps and ping numbers wraps as in release builds.
- The 4096-byte receive buffer of the driver, and the times the driver passes to the handlers: which deadlines and datagrams reach them, and when, is up to the environment.
- The selection of SDP options, the video, control, microphone and input streams, and the threads of the blocking driver.
- Sockets, DNS, HTTP, XML, ENet, the C bindings and logging.
