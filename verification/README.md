# FLEETROUTE: verified models of the ingestion, streaming and fan-out core

This project models, in Dafny 4.11, the parts of the FLEETROUTE GPS fleet platform that carry real invariants, and proves
properties of them for every input, every interleaving or every pattern of failures. `dafny verify dfyconfig.toml` checks
all of it. Nothing here runs the Go program.

| file | models |
|---|---|
| `Options.dfy`, `Bytes.dfy` | bytes, XOR, big-endian and two's complement integers, a connection as the bytes not read yet |
| `Crc.dfy`, `CrcBursts.dfy` | the two bitwise CRC-16 loops, and which errors they detect |
| `TeltonikaWire.dfy`, `Teltonika.dfy`, `TeltonikaLayout.dfy` | the AVL record format; the packet parser; both in terms of bytes alone |
| `Jt808.dfy` | byte stuffing, framing, the location batch |
| `Gt06.dfy` | response builder and packet reader |
| `Ais140.dfy` | checksummed text lines |
| `Keys.dfy` | the Redis key and channel names that the services share |
| `Hub.dfy`, `HubDelivery.dfy`, `HubLoop.dfy` | the WebSocket hub as a step relation over all interleavings; which messages reach which client; the same hub as an object; channel routing |
| `ConnRegistry.dfy` | the connection registry and all handlers around it |
| `Trips.dfy`, `TripCut.dfy` | the trip state machine with failing operations, and what it computes without failures |
| `TripOverlap.dfy` | the trip state machine with its operations as separate steps of concurrent calls |
| `StreamProcessor.dfy` | message processing under redelivery: trips, `avl_records`, the live snapshot and what is published |
| `RateLimit.dfy`, `RateInterleaved.dfy` | the per-tenant request limit; the same with its two Redis calls as separate steps |

## How it is built

- **Wire formats.** A scanner on byte sequences is the specification. It is proved to be the exact inverse of an encoder
  (whatever is encoded is read back, and whatever is read is an encoding), and the cursor loops of the parser are proved
  to compute it. Self-delimitation, truncation behaviour and minimum sizes then follow from the two directions. A round trip
  says nothing of a choice that encoder and scanner share (a width, a byte order, a constant, a header field nobody reads),
  so every such choice is stated once more as bytes at offsets, against the catalogued CRCs, or by a packet read in full.
- **Concurrency.** Goroutines become a step relation. The queues of the hub are sets and multisets of pending sends, so
  every order in which Go could deliver them is included; a broadcast offers its message to one client per step, and the
  pumps may act between two offers. The event-loop cases are also written as methods of an object whose history is proved
  to be a run of these steps, a whole broadcast in any order included; so what holds of every run holds of the object. The
  connection registry is written in both ways as well.
- **Failures.** Every Redis or database operation may succeed, fail without effect, or fail after taking effect; one that
  passes anything but an id to a UUID column always fails.
- **History** kept only to state a property (what a client was offered, the order of registrations, the number of failed
  operations) is carried in the state beside the fields of the source and never influences a step.

## What turned out not to hold

Each of these is stated exactly, with the condition under which the code does meet its purpose.

- A Teltonika ACK cannot be built for a raw packet of exactly nine bytes: the length test admits it and index 9 is out of
  range. That happens exactly for a packet of nine payload bytes with a wrong CRC (`Teltonika.AckPanicsExactly`).
- The GT06 reader checks the serial number where the documented layout has the CRC, so it accepts the server's own
  response only if the serial equals the CRC of protocol number and data (`Gt06.ReadsOwnResponse`). It also indexes out of
  range, exactly on complete packets of declared length below 4, or of length 4 that begin with 0xFFFF
  (`Gt06.PanicsExactly`).
- A device that reconnects can be connected, served and yet missing from the registry (`ConnRegistry.LatestIsMissingExactly`).
- A WebSocket client whose unregister request is handled before its registration stays in the hub's map with nothing
  pending to remove it, until it is too slow for a message (`Hub.StrandedExactly`).
- If some device d shares a store with the device named d followed by ":tripid", the longer-named one can open a second trip
  with no operation failing; the shorter-named one is not affected. Both guarantees of the trip machine, the bound on open
  trips and the cut, hold of a device exactly when no such d is there (`TripCut.KeptExactlyIfUndisturbed`). This is about
  `Process` alone: in the pipeline an id that is not a UUID finds no tenant
  (stream-processor/internal/enrichment/pipeline.go:87-96) and its INSERT into a UUID NOT NULL column fails
  (migrations/000006_trips_alerts.up.sql:4), so there the bound holds of every device
  (`StreamProcessor.OpenTripsBoundInPipeline`).
- A failed tenant lookup looks like an unknown device: the record is acknowledged and dropped, also if the device exists
  (`StreamProcessor.AckedIsAbsentExactly`, `StreamProcessor.LookupFailureLoses`).
- The trip machine runs before the write that may be refused, and does not look at timestamps. A refused record that is
  delivered again during a later trip can end that trip before its start, and set the live position back
  (`TripCut.LateRecordEndsBackwardsExactly`, `StreamProcessor.LateRedeliveryActsExactly`, `StreamProcessor.LateRedelivery`).
- With several processes on one consumer (infra/k8s/deployment.yaml:43, infra/k8s/hpa.yaml:29-30) calls for one device can
  overlap, and each overlap can add an open trip though nothing fails, but no more than one (`TripOverlap.OverlapBound`,
  `TripOverlap.BoundIsReached`). Again the bound holds of a device exactly when its id is not another one's followed by ":tripid"
  (`TripOverlap.BoundedExactlyIfUndisturbed`).
- The limit of 1000 requests a minute is a fixed window: up to 1999 can pass within one minute (`RateInterleaved.MinuteBound`,
  `RateInterleaved.BoundIsReached`). The comment in the source calls it a token bucket. If the first request's expiry is lost,
  the counter never expires, and after a thousand requests the tenant is refused for good (`RateLimit.RefusedForeverExactly`,
  `RateLimit.LostExpiryLocksOut`).

## Model

| member | source | states |
|---|---|---|
| `Bytes.XorLoop` | protocols/jt808/handler.go:196-199 | the loop computes the XOR of all bytes |
| `Bytes.XorIsParity` | protocols/jt808/handler.go:196-199 | each bit of the XOR says whether an odd number of bytes have it |
| `Bytes.BigEndian` | protocols/teltonika/handler.go:248-309 | the first byte of a word counts most: each byte is worth 256 times the one behind it |
| `Bytes.BEOfCut` | protocols/jt808/handler.go:223 | a number written in too few bytes keeps its remainder |
| `Bytes.SignedIs` | protocols/teltonika/handler.go:248-280 | a word read as signed is the one number of the signed range that agrees with it up to the word size |
| `Bytes.Conn.ReadFull` | protocols/teltonika/handler.go:109-112 | all bytes asked for, or an error after using up what was there |
| `Crc.Crc16Ibm` | protocols/teltonika/crc.go:9-22 | the nested loops compute the ARC register over the whole message |
| `Crc.Crc16Ccitt` | protocols/gt06/handler.go:273-286 | the nested loops compute the CCITT-FALSE register over the whole message |
| `Crc.RunLinear` | protocols/gt06/handler.go:275-284 | both registers are linear over XOR, jointly in start value and message, at any length |
| `Crc.ArcLinear` | protocols/teltonika/crc.go:10-20 | the ARC CRC of the XOR of two messages is the XOR of their CRCs |
| `Crc.CcittAffine` | protocols/gt06/handler.go:274-284 | with the 0xFFFF start the CRC is affine: it respects the XOR of any three messages |
| `Crc.ArcResidue` | protocols/teltonika/crc.go:9-22 | a message followed by its own CRC, low byte first, has CRC zero |
| `Crc.CcittResidue` | protocols/gt06/handler.go:273-286 | a message followed by its own CRC, high byte first, has CRC zero |
| `Crc.CheckValues` | protocols/gt06/handler.go:273-286 | both CRCs of "123456789" are the catalogued 0xBB3D and 0x29B1, which pins polynomials and start values |
| `CrcBursts.RunIsRunBits` | protocols/gt06/handler.go:273-286 | the byte loops compute the register fed bit by bit, low bit first for ARC and high bit first for CCITT |
| `CrcBursts.ResidueExactly` | protocols/teltonika/handler.go:120-128 | two bytes behind a message bring either register to zero if and only if they are its CRC, in the order of that register |
| `CrcBursts.PackDecides` | protocols/gt06/handler.go:275-284 | up to 16 bits bring exactly one register to zero, the one that holds those bits |
| `CrcBursts.BurstsDetected` | protocols/gt06/handler.go:273-286 | both CRCs differ for any two equal-length messages that differ only within 16 consecutive bits in transmission order, at any length |
| `CrcBursts.LongerBurstMissed` | protocols/gt06/handler.go:273-286 | 17 bits can go undetected: the polynomial's own |
| `CrcBursts.AdjacentErrorsDetected` | protocols/teltonika/crc.go:9-22 | both CRCs differ for any two equal-length messages that differ only within two adjacent bytes, or one |
| `TeltonikaWire.ValueRoundTrip` | protocols/teltonika/handler.go:350-361 | 1-, 2- and 4-byte values are zero-extended, 8-byte values are two's complement, and both survive encoding |
| `TeltonikaWire.ValueIs` | protocols/teltonika/handler.go:350-361 | only 8-byte values have a sign, and theirs is two's complement |
| `TeltonikaWire.ElementsRoundTrip` | protocols/teltonika/handler.go:329-363 | a run of fixed-width elements, followed by anything, is read back exactly |
| `TeltonikaWire.GroupsRoundTrip` | protocols/teltonika/handler.go:313-364 | the four counted groups, with either id width, are read back exactly |
| `TeltonikaWire.XsRoundTrip` | protocols/teltonika/handler.go:373-394 | variable-length elements are read back exactly |
| `TeltonikaWire.HeadRoundTrip` | protocols/teltonika/handler.go:248-309 | timestamp, priority, GPS element and IO header are read back exactly |
| `TeltonikaWire.HeadInverse` | protocols/teltonika/handler.go:248-309 | every sufficiently long byte string is the encoding of the head read from it |
| `TeltonikaWire.AvlRoundTrip` | protocols/teltonika/handler.go:237-398 | a record, followed by any bytes, is read back and exactly its bytes are consumed |
| `TeltonikaWire.AvlInverse` | protocols/teltonika/handler.go:237-398 | every accepted record's bytes are the encoding of what was read, within bounds |
| `TeltonikaWire.ItemsRoundTrip` | protocols/teltonika/handler.go:177-230 | any list of records under any of the three codecs is read back in order, whatever follows |
| `TeltonikaWire.ItemsInverse` | protocols/teltonika/handler.go:177-230 | nothing but the encoding of a list of records is accepted |
| `TeltonikaWire.ItemsSize` | protocols/teltonika/handler.go:237-398 | k records take at least 30k bytes under Codec 8, 38k under 8E, 32k under 16 |
| `TeltonikaWire.SelfDelimiting` | protocols/teltonika/handler.go:237-398 | a success depends on the bytes consumed only, fails on every strict truncation of them, and consumes at least 30, 38 or 32 bytes per record |
| `TeltonikaWire.Codec16IsCodec8` | protocols/teltonika/handler.go:211-230 | for every accepted Codec 16 input, Codec 8 on the bytes with the 2-byte fields cut out gives the same records |
| `Teltonika.LastWriteWins` | protocols/teltonika/handler.go:361-392 | IOData has exactly the ids written, each with the value of its last occurrence |
| `Teltonika.ReadElements` | protocols/teltonika/handler.go:329-363 | the element loop reads what the format says, or fails exactly when bytes are missing, writing into the map in order |
| `Teltonika.ReadGroup` | protocols/teltonika/handler.go:314-363 | one counted group likewise |
| `Teltonika.ReadGroups` | protocols/teltonika/handler.go:313-364 | the loop over the widths 1, 2, 4, 8 likewise |
| `Teltonika.ReadXElement` | protocols/teltonika/handler.go:374-393 | one variable-length element likewise |
| `Teltonika.ReadXElements` | protocols/teltonika/handler.go:371-394 | the variable-length loop likewise |
| `Teltonika.FirstEight` | protocols/teltonika/handler.go:388-391 | the shift loop yields the first eight bytes as an int64 |
| `Teltonika.XValueKeeps` | protocols/teltonika/handler.go:387-392 | values of up to eight bytes are kept exactly, of longer ones only the first eight bytes count |
| `Teltonika.ParseAvlRecord8` | protocols/teltonika/handler.go:237-398 | the cursor parser returns the view of the scanned record and the bytes consumed, in bounds, and fails exactly on short input |
| `Teltonika.HeadFields` | protocols/teltonika/handler.go:248-309 | every field of the head stands at its offset, and a fix is valid with a satellite and a position other than 0, 0 |
| `Teltonika.ParseCodec` | protocols/teltonika/handler.go:177-230 | the three record loops return the views of the scanned list, or an error |
| `Teltonika.ParsePacket` | protocols/teltonika/handler.go:86-161 | every outcome, error and raw result of reading a packet, and what is left on the connection |
| `Teltonika.DecodePayload` | protocols/teltonika/handler.go:132-160 | codec dispatch, record count, and the codec id stamped on every record |
| `Teltonika.AcceptedPacket` | protocols/teltonika/handler.go:125-173 | raw is exactly the 12 + dataLen bytes taken from the stream, and BuildACK(raw) is the big-endian count of the records returned |
| `Teltonika.AcceptedIsEncoded` | protocols/teltonika/handler.go:136-151 | the payload of an accepted packet starts with the encoding of the records returned |
| `Teltonika.PacketRoundTrip` | protocols/teltonika/handler.go:86-161 | an encoded packet of any codec is accepted with its records and consumed exactly |
| `Teltonika.StreamRoundTrip` | protocols/teltonika/handler.go:86-161 | packets sent back to back are read as sent, and nothing more is consumed |
| `Teltonika.AckPanicsExactly` | protocols/teltonika/handler.go:120-173 | for every byte stream, the ACK of the raw packet handed on cannot be built exactly when the CRC is wrong and the payload has nine bytes |
| `Teltonika.AckPanics` | protocols/teltonika/handler.go:163-173 | such a packet exists |
| `TeltonikaLayout.GroupsLayout` | protocols/teltonika/handler.go:313-364 | the groups hold values of 1, 2, 4 and 8 bytes, in this order, each behind its own count |
| `TeltonikaLayout.CrcDecides` | protocols/teltonika/handler.go:115-128 | a packet that has arrived is refused for its CRC if and only if CRC-16/ARC over the payload and the two last bytes, low one first, is not zero |
| `TeltonikaLayout.RefusedEarly` | protocols/teltonika/handler.go:86-118 | which error an incomplete or wrongly headed packet gives, by its bytes, and what is left on the connection |
| `TeltonikaLayout.ReadExactly` | protocols/teltonika/handler.go:120-161 | when each later error is given, by CRC, length and codec byte; an accepted packet has as many records as its count byte says |
| `TeltonikaLayout.AckIs` | protocols/teltonika/handler.go:163-173 | the ACK is three zero bytes and the count byte of the packet, or zero for one without a count |
| `TeltonikaLayout.PlainPayload` | protocols/teltonika/handler.go:132-230 | the vendor's example record, with an element of each width, is read to the last field under Codec 8, and under Codec 16 |
| `TeltonikaLayout.ExtendedPayload` | protocols/teltonika/handler.go:237-398 | a Codec 8 Extended record with 2-byte ids and counts and a variable-length element is read to the last field |
| `Jt808.EscapeLoop` | protocols/jt808/handler.go:345-358 | the loop stuffs the whole string |
| `Jt808.UnescapeLoop` | protocols/jt808/handler.go:327-343 | the loop with its skipping index unstuffs the whole string, including undefined and trailing escapes |
| `Jt808.EscapedIsClean` | protocols/jt808/handler.go:345-358 | stuffed strings contain no flag, and every escape in them starts a defined pair |
| `Jt808.UnescapeOfEscape` | protocols/jt808/handler.go:327-358 | unstuffing inverts stuffing on every string |
| `Jt808.EscapeOfUnescape` | protocols/jt808/handler.go:327-358 | stuffing inverts unstuffing exactly on flag-free strings whose every escape starts a defined pair |
| `Jt808.StuffedByte` | protocols/jt808/handler.go:345-358 | 0x7E is sent as 0x7D 0x02, 0x7D as 0x7D 0x01, anything else as itself |
| `Jt808.UnstuffedEscape` | protocols/jt808/handler.go:327-343 | what each byte behind a 0x7D makes of it; an undefined pair disappears, a final 0x7D is kept |
| `Jt808.ReadToFlag` | protocols/jt808/handler.go:166-186 | the byte-wise loop stops at the first flag, or fails at the end of the connection |
| `Jt808.ReadFrame` | protocols/jt808/handler.go:164-217 | every outcome of reading a frame, and what is left on the connection |
| `Jt808.FrameOutcomes` | protocols/jt808/handler.go:188-214 | between two flags: too short under 13 bytes unstuffed, a bad checksum if the XOR of all of them is not zero, else a frame; the connection is left behind the second flag |
| `Jt808.NoFrame` | protocols/jt808/handler.go:166-186 | without a flag there is no start, with one alone no end, and all is used up |
| `Jt808.WriteFrame` | protocols/jt808/handler.go:219-240 | the bytes written for a message are its header, body and checksum, stuffed, between two flags |
| `Jt808.OnTheWireIs` | protocols/jt808/handler.go:219-240 | between two 0x7E, stuffing removed, stand message id, body length (cut to 16 bits), phone, sequence number and body at their offsets, and the XOR of all these |
| `Jt808.CheckedIsAccepted` | protocols/jt808/handler.go:191-211 | header, body and checksum as written are accepted and give the message back |
| `Jt808.FrameRoundTrip` | protocols/jt808/handler.go:164-240 | a written frame behind any flag-free noise is read back and consumed exactly |
| `Jt808.LineRoundTrip` | protocols/jt808/handler.go:164-240 | any list of messages separated by flag-free noise is read back in order, exactly their bytes consumed |
| `Jt808.RawIsStable` | protocols/jt808/handler.go:188-214 | an accepted frame's reconstructed bytes read back as the same frame, and equal the wire bytes exactly when every escape there starts a defined pair |
| `Jt808.LocationRoundTrip` | protocols/jt808/handler.go:249-272 | the fixed fields of a location report, followed by anything, are read back from their places |
| `Jt808.LocationLayout` | protocols/jt808/handler.go:249-272 | each field of a location stands big-endian at its offset |
| `Jt808.ParseLocationBatch` | protocols/jt808/handler.go:298-323 | the batch loop returns the items that fit, in order, with every slice in bounds |
| `Jt808.BatchRoundTrip` | protocols/jt808/handler.go:243-323 | a non-empty encoded batch yields the locations of exactly the items of 28 bytes or more, in order |
| `Jt808.BatchLayout` | protocols/jt808/handler.go:298-323 | a batch of two items, byte by byte |
| `Jt808.BatchCutShort` | protocols/jt808/handler.go:304-323 | with a count too large the result ends where an item does not fit |
| `Jt808.BatchOfFirst` | protocols/jt808/handler.go:298-323 | with one too small the other items are left unread; a body is refused exactly if it is under four bytes |
| `Jt808.BatchOfPrefix` | protocols/jt808/handler.go:298-323 | a body cut to at least four bytes yields a prefix of the full result |
| `Gt06.BuildResponse` | protocols/gt06/handler.go:243-256 | the bytes of a response, its length byte cut to eight bits |
| `Gt06.ReadPacket` | protocols/gt06/handler.go:135-180 | every outcome of reading a packet, panics included, and what is left on the connection |
| `Gt06.AcceptedExactly` | protocols/gt06/handler.go:151-180 | a complete packet is accepted if and only if it declares more than four bytes and CRC-16/CCITT-FALSE over all of them but two is zero; where its fields stand, and what is consumed |
| `Gt06.RefusedEarly` | protocols/gt06/handler.go:135-162 | which error any other input gives, by its bytes, and what is left on the connection |
| `Gt06.PanicsExactly` | protocols/gt06/handler.go:151-178 | for every byte stream, the reader indexes out of range exactly on a complete packet of length below 4, or of length 4 whose body begins with 0xFFFF |
| `Gt06.PanickingPackets` | protocols/gt06/handler.go:163-178 | a packet of each kind |
| `Gt06.ReadsOwnResponse` | protocols/gt06/handler.go:163-178 | for data up to 250 bytes the reader recovers proto, data and serial from a response if and only if the serial is the CRC of proto and data; else it reports a CRC mismatch |
| `Gt06.RefusedResponse` | protocols/gt06/handler.go:163-169 | a login acknowledgement with serial 1 is refused |
| `Gt06.ResponseFollowsLayout` | protocols/gt06/handler.go:4-11 | start bytes, length, proto, data, serial, CRC and stop bytes at their offsets, for any data; the CRC covers proto, data and serial |
| `Ais140.SplitOfJoin` | protocols/ais140/handler.go:186-208 | splitting at commas inverts joining comma-free fields |
| `Ais140.IsValidChecksum` | protocols/ais140/handler.go:190-205 | for any bytes, accepts exactly lines whose two digits after the last star are, up to case, the XOR of the low bytes of the runes before it |
| `Ais140.AcceptedExactly` | protocols/ais140/handler.go:190-205 | a line passes if and only if the last star is followed by two hexadecimal digits of either case, high one first, of the XOR of what stands between an optional dollar and that star |
| `Ais140.FirstRuneIs` | protocols/ais140/handler.go:200-203 | the loop takes a rune exactly as section 3 of RFC 3629 encodes it, and one byte as U+FFFD where no encoding starts |
| `Ais140.RuneOfUtf8` | protocols/ais140/handler.go:200-203 | every encoded Unicode scalar value is read back, whatever follows |
| `Ais140.XorIs` | protocols/ais140/handler.go:200-203 | the checksum is the XOR of the low bytes of the runes |
| `Ais140.SmallLine` | protocols/ais140/handler.go:181-214 | the line "$A,1*5C" built and read back; a line without dollar and star is split too |
| `Ais140.BuildPacket` | protocols/ais140/handler.go:207-214 | the line built for a type and fields |
| `Ais140.BuiltLine` | protocols/ais140/handler.go:181-214 | every built line passes the check, stars and dollars included, and parses back to type and fields exactly when there is a field and none has a comma |
| `Ais140.SubstitutionDetected` | protocols/ais140/handler.go:190-205 | replacing one character of an ASCII body by another makes the check fail |
| `Hub.StepKeeps` | websocket-service/internal/hub/hub.go:51-91 | every step of the loop, the pumps and their callers keeps the invariant |
| `Hub.RunKeeps` | websocket-service/internal/hub/hub.go:51-164 | the invariant holds in every state of every interleaving |
| `Hub.NeverFaults` | websocket-service/internal/hub/hub.go:62-86 | the hub never sends on a closed channel and never closes one twice |
| `Hub.RemovedForGood` | websocket-service/internal/hub/hub.go:62-68 | a removed client stays closed and out of the map and of the register queue |
| `Hub.DroppedIsLeaving` | websocket-service/internal/hub/hub.go:80-86 | after a drop an unregister is pending until the client is removed |
| `Hub.StrandedExactly` | websocket-service/internal/hub/hub.go:56-68 | a client whose read pump has exited stays in the map with nothing pending exactly when the run took an unregister of it before its register event and it never dropped a message |
| `Hub.StrandedClient` | websocket-service/internal/hub/hub.go:131-135 | such a run exists |
| `Hub.Delivery` | websocket-service/internal/hub/hub.go:70-88 | accepted messages are an in-order subsequence of the tenant's broadcasts matching the filter then in force, without a gap before the first drop |
| `Hub.OnlyOwnTenant` | websocket-service/internal/hub/hub.go:72-79 | a client accepts only messages that were published, and for its own tenant |
| `HubDelivery.DeliveredAsDue` | websocket-service/internal/hub/hub.go:70-88 | in every run what a client accepts is, in order, among the broadcasts begun for its tenant while it was in the map and of a device its filter then admitted; it is all of them up to its first drop, which takes 256 accepted messages not handed on |
| `HubDelivery.EntitledIsDue` | websocket-service/internal/hub/hub.go:73-79 | what the log entitles a client to are exactly those broadcasts, told by the events of the run alone |
| `HubDelivery.OfferIs` | websocket-service/internal/hub/hub.go:73-86 | one offer: the message is buffered if tenant and device fit and fewer than 256 wait, the client is reported if 256 do, and nothing happens otherwise |
| `HubDelivery.InMapExactly` | websocket-service/internal/hub/hub.go:56-68 | a client is in the map exactly if it was registered and no unregister request of it has been taken since |
| `HubDelivery.FilterExactly` | websocket-service/internal/hub/hub.go:93-161 | a client has the tenant it connected with and the filter it last asked for |
| `HubDelivery.ClosedExactly` | websocket-service/internal/hub/hub.go:62-68 | a client's channel is closed exactly if an unregister request was taken while it was in the map |
| `HubDelivery.SafeNext` | websocket-service/internal/hub/hub.go:62-86 | in every run, whatever the loop does next, it sends on no closed channel and closes none twice |
| `HubDelivery.OneOfTwo` | websocket-service/internal/hub/hub.go:70-88 | a run in which a client subscribed to one of two devices gets that device's message and not the other |
| `HubLoop.Loop.DeviceSet` | websocket-service/internal/hub/hub.go:95-98 | the loop builds the set of the devices named |
| `HubLoop.Loop.Register` | websocket-service/internal/hub/hub.go:94-107 | extends the history by the connect step: a new client, queued for registration |
| `HubLoop.Loop.Unregister` | websocket-service/internal/hub/hub.go:110-135 | extends the history by the exit step: an unregister request is sent |
| `HubLoop.Loop.Broadcast` | websocket-service/internal/hub/hub.go:115-117 | extends the history by the publish step |
| `HubLoop.Loop.SubscribeTo` | websocket-service/internal/hub/hub.go:154-161 | extends the history by the subscribe step: the filter is replaced |
| `HubLoop.Loop.RunRegister` | websocket-service/internal/hub/hub.go:56-60 | extends the history by the register step |
| `HubLoop.Loop.RunUnregister` | websocket-service/internal/hub/hub.go:62-68 | extends the history by the unregister step: deletes and closes only a client in the map |
| `HubLoop.Loop.OfferTo` | websocket-service/internal/hub/hub.go:73-86 | extends the history by the offer step: tenant and device filter, non-blocking send, drop |
| `HubLoop.Loop.RunBroadcast` | websocket-service/internal/hub/hub.go:70-88 | is a begin step, one offer step per client in the map in some order, and a finish step; the end state offers the message once to each and reports exactly the slow ones |
| `HubLoop.BroadcastIsRun` | websocket-service/internal/hub/hub.go:70-88 | in every run, walking the map in any order is a run, and the end state does not depend on the order |
| `HubLoop.Loop.SafeAlways` | websocket-service/internal/hub/hub.go:62-86 | the object never sends on a closed channel or closes one twice |
| `HubLoop.Loop.DeliversInOrder` | websocket-service/internal/hub/hub.go:70-88 | what a client of the object accepts is in order among the messages it is due, and all of them if none was dropped; all were published, for its tenant |
| `HubLoop.Loop.WriteOne` | websocket-service/internal/hub/hub.go:120-128 | extends the history by the drain step: the oldest buffered message leaves |
| `HubLoop.HandleMessage` | websocket-service/internal/redis_consumer/subscriber.go:52-74 | publishes the routed message, or nothing for a channel name that is too short |
| `HubLoop.RoutedToItsTenant` | pkg/db/clients.go:89-97 | a channel made for a tenant is routed to that tenant; only the empty tenant is dropped; alert channels are routed the same way |
| `Keys.LiveKeysDiffer` | pkg/db/clients.go:69-72 | devices of tenants without a colon, as UUIDs are, have a live key each |
| `Keys.Names` | pkg/db/clients.go:69-97 | the names of the live key and of both channels in full |
| `HubLoop.PositionStaysInTenant` | websocket-service/internal/redis_consumer/subscriber.go:52-74 | a position published for a tenant is accepted, in every run, only by clients registered under it |
| `ConnRegistry.Registry.Register` | ingestion-service/internal/server/conn_registry.go:22-29 | the connection replaces and closes the one registered before; called by a handler that has authenticated, it is the register step |
| `ConnRegistry.Registry.Unregister` | ingestion-service/internal/server/conn_registry.go:32-36 | removes the device, whichever connection it has; called by a serving handler, it is that handler's unregister step |
| `ConnRegistry.Registry.Connected` | ingestion-service/internal/server/conn_registry.go:52-57 | true exactly when the last thing logged about the device is a registration, and then that connection is open and its handler is serving the device |
| `ConnRegistry.Registry.Count` | ingestion-service/internal/server/conn_registry.go:59-64 | the number of devices whose last log entry is a registration, at most the number of serving handlers |
| `ConnRegistry.Registry.Close` | ingestion-service/internal/server/tcp_server.go:80-81 | the handler's last deferred call is its close step |
| `ConnRegistry.RunKeeps` | ingestion-service/internal/server/tcp_server.go:80-148 | the invariant relating registry, handlers, closed connections and history holds in every interleaving |
| `ConnRegistry.RegisteredIsOpen` | ingestion-service/internal/server/conn_registry.go:20-36 | a registered connection is not closed by the server and its handler has not unregistered; the server has closed exactly the displaced connections and those whose handler finished |
| `ConnRegistry.LatestIsMissingExactly` | ingestion-service/internal/server/tcp_server.go:109-148 | a device's latest registered, still served connection is missing from the registry exactly when an earlier handler of that device unregistered after it registered |
| `ConnRegistry.ReconnectRace` | ingestion-service/internal/server/conn_registry.go:31-36 | such an interleaving exists |
| `ConnRegistry.CountBound` | ingestion-service/internal/server/conn_registry.go:59-64 | the count never exceeds the number of handlers between register and unregister |
| `Trips.TripMachine.Process` | stream-processor/internal/enrichment/trip_machine.go:28-73 | keys, rows and failed operations after one record, for every outcome of every operation |
| `Trips.KeysCollide` | stream-processor/internal/enrichment/trip_machine.go:29-30 | two devices share a key exactly when one id is the other followed by ":tripid" |
| `Trips.OneTrip` | stream-processor/internal/enrichment/trip_machine.go:28-73 | what a trip leaves behind when it opens and when it closes: both keys and the row, in full |
| `Trips.ErrorsIgnored` | stream-processor/internal/enrichment/trip_machine.go:32-72 | an unreadable state stops everything and a failed insert leaves the keys alone; every other error is passed over, and each later write is made all the same |
| `Trips.FailuresCounted` | stream-processor/internal/enrichment/trip_machine.go:32-72 | what is counted as failures are the operations that reported an error, one each |
| `Trips.RunBounded` | stream-processor/internal/enrichment/trip_machine.go:28-73 | for a device that no other disturbs, open rows are paid for by failures, except one that the ACTIVE key and the trip-id key account for |
| `Trips.OpenTripsBound` | stream-processor/internal/enrichment/trip_machine.go:28-73 | however operations fail, the open trips of a device that no other disturbs never exceed one plus the failed operations for it |
| `TripCut.FirstsAreFirst` | stream-processor/internal/enrichment/trip_machine.go:37-54 | the cut looks for the first speed above 5 and the first later speed below 2 |
| `TripCut.CutGrows` | stream-processor/internal/enrichment/trip_machine.go:37-72 | cutting a whole stream agrees with extending the cut record by record |
| `TripCut.CutOrdered` | stream-processor/internal/enrichment/trip_machine.go:37-72 | trips end after they start, before the next one starts, and at most the last is open |
| `TripCut.RowsAreTheCut` | stream-processor/internal/enrichment/trip_machine.go:28-73 | if its tenant is found and its own operations succeed, under any interleaving and any failures of other devices, the rows of a device that no other disturbs are exactly the cut of its own records |
| `TripCut.RowsInOrder` | stream-processor/internal/enrichment/trip_machine.go:40-61 | with increasing timestamps a device's rows are ordered, disjoint trips |
| `TripCut.Replayed` | stream-processor/internal/enrichment/trip_machine.go:37-72 | processing the same record again at once changes nothing |
| `TripCut.ReplayedAnyNumber` | stream-processor/internal/enrichment/trip_machine.go:37-72 | nor does any number of repetitions |
| `TripCut.CollisionOpensTwice` | stream-processor/internal/enrichment/trip_machine.go:29-30 | with d and d:tripid in one store the latter has two open trips though nothing failed, and one row more than its cut |
| `TripCut.KeptExactlyIfUndisturbed` | stream-processor/internal/enrichment/trip_machine.go:28-73 | among any set of devices, the bound and the cut hold of a device in all runs if and only if it is not another one's id followed by :tripid |
| `TripCut.LateRecordActsExactly` | stream-processor/internal/enrichment/trip_machine.go:32-72 | a late record changes the store exactly when it is slow and a trip is under way, or fast, with a tenant, and none is |
| `TripCut.RepeatDoesNothing` | stream-processor/internal/enrichment/trip_machine.go:37-72 | a record that comes again before any other of its device changes nothing, whatever other devices did meanwhile |
| `TripCut.LateRecordEndsBackwardsExactly` | stream-processor/internal/enrichment/trip_machine.go:54-61 | a record makes a trip end no later than it started exactly when it is slow, finds a trip under way and is not younger than its first record |
| `TripOverlap.AloneIsStep` | stream-processor/internal/enrichment/trip_machine.go:28-73 | a call that nothing interrupts makes the same changes and failures as the one-step machine |
| `TripOverlap.StepKeeps` | stream-processor/internal/enrichment/trip_machine.go:28-73 | every single operation of every concurrent call, of this device or of one that does not disturb it, keeps the invariant relating open rows to keys, failures and overlaps |
| `TripOverlap.OverlapBound` | stream-processor/internal/enrichment/trip_machine.go:28-73 | under any interleaving of calls and any failures, the open trips of a device that no other disturbs never exceed one plus its failed operations plus its overlapping calls |
| `TripOverlap.BoundIsReached` | stream-processor/internal/enrichment/trip_machine.go:32-54 | for every number of overlaps that bound is attained without failures |
| `TripOverlap.SequentialIsPossible` | stream-processor/internal/enrichment/trip_machine.go:28-73 | every run of the one-step machine is a run of the concurrent one without overlaps, with the same store and failures |
| `TripOverlap.BoundedExactlyIfUndisturbed` | stream-processor/internal/enrichment/trip_machine.go:28-73 | among any set of devices, the bound holds of a device in all concurrent runs if and only if it is not another one's id followed by :tripid |
| `StreamProcessor.Processor.Write` | stream-processor/internal/writer/timescale.go:26-65 | insert-if-absent on (device, timestamp) |
| `StreamProcessor.Processor.ProcessMessage` | stream-processor/cmd/main.go:97-148 | tenant lookup, trip machine, tenant check, write, live snapshot, event, push and verdict in that order, for every outcome |
| `StreamProcessor.FirstCommitWins` | stream-processor/internal/writer/timescale.go:29-50 | the table holds exactly the keys (device, timestamp) of the deliveries whose device was found and whose write took effect, each with the record, the tenant found and the time of the first of them |
| `StreamProcessor.RefusedExactly` | stream-processor/cmd/main.go:97-147 | a delivery is refused exactly if its tenant is found and its write reports an error |
| `StreamProcessor.TripRunIs` | stream-processor/cmd/main.go:114-120 | the trip machine gets every record that parses, with the tenant found for its device or with none |
| `StreamProcessor.AckedIsStored` | stream-processor/cmd/main.go:121-147 | an acknowledged record whose lookup found a tenant is in the table from then on |
| `StreamProcessor.AckedIsAbsentExactly` | stream-processor/internal/enrichment/pipeline.go:85-96 | an acknowledged record is not in the table exactly when its device is unknown or its lookup failed, and its key was not stored before |
| `StreamProcessor.AnnouncedExactly` | stream-processor/cmd/main.go:121-147 | in every run a record is in the event stream, and on pubsub:device: of its tenant, once for each delivery that found that tenant, wrote it without error and whose publication took effect |
| `StreamProcessor.PublishedIsStored` | stream-processor/cmd/main.go:114-147 | in every run, whatever is in the live snapshot, published or pushed is stored, and goes out under its own tenant's key or channel |
| `StreamProcessor.PushedToItsTenant` | stream-processor/internal/writer/redis.go:59-83 | what is pushed is routed by the hub to the device's tenant |
| `StreamProcessor.AnnouncedOnce` | stream-processor/cmd/main.go:121-147 | if the attempts at a message follow one another, it is announced once, by the attempt acknowledged, and never if none is |
| `StreamProcessor.StoredOnce` | stream-processor/cmd/main.go:121-127 | if the attempts at a message follow one another, its row is stored once, by the first that took effect, unless the key was there; an acknowledged message is stored |
| `StreamProcessor.DrivenOnce` | stream-processor/cmd/main.go:114-127 | if the attempts at a message follow one another and the trip machine's operations succeed, the trips are those after one |
| `StreamProcessor.DrivenOnceAmongOthers` | stream-processor/cmd/main.go:97-148 | likewise if messages of other devices come between, whatever their outcomes |
| `StreamProcessor.LiveIsLastAcknowledged` | stream-processor/internal/writer/redis.go:27-57 | for every tenant and device, device:live:tenant:device holds the last record of that pair that was acknowledged and whose SET took effect, whatever its time; no other device or tenant touches it |
| `StreamProcessor.AsIfOnce` | migrations/000004_avl_records.up.sql:43 | redeliveries leave the table as if each record had been written once |
| `StreamProcessor.OrderIrrelevant` | stream-processor/internal/writer/timescale.go:29-50 | if equal keys mean equal records, the keys and records stored do not depend on order or number of deliveries; received_at is that of the first commit |
| `StreamProcessor.RedeliveredAtOnce` | stream-processor/cmd/main.go:97-148 | a message redelivered at once with operations succeeding leaves trips and records unchanged |
| `StreamProcessor.OpenTripsBoundInPipeline` | stream-processor/internal/enrichment/pipeline.go:85-96 | with the tenant lookup in front, and UUIDs as device ids in the table, the bound on open trips holds of every device whatever the ids in the messages |
| `StreamProcessor.LateRedeliveryActsExactly` | stream-processor/cmd/main.go:114-127 | a late redelivery changes trips or records exactly when its key is not stored or the trip machine acts on its speed |
| `StreamProcessor.LateRedelivery` | stream-processor/cmd/main.go:114-135 | a run in which a refused record comes again, ends a trip before its start and sets the live position back |
| `RateLimit.Limiter.Handle` | api-service/internal/middleware/middleware.go:46-75 | counter, expiry, verdict and remaining-requests header for every outcome of the Redis calls; other keys untouched |
| `RateLimit.BoundIsReached` | api-service/internal/middleware/middleware.go:57-72 | 2001 requests one after another of which 1999 pass in one minute |
| `RateLimit.FirstThousand` | api-service/internal/middleware/middleware.go:57-72 | in the minute after a counter is created exactly the first 1000 requests pass |
| `RateLimit.FailsOpen` | api-service/internal/middleware/middleware.go:57-61 | a request whose INCR reports an error passes and sets no expiry |
| `RateLimit.KeyIs` | api-service/internal/middleware/middleware.go:54-56 | the name of the counter in full |
| `RateLimit.TenantsIndependent` | api-service/internal/middleware/middleware.go:54-57 | counter and verdict of every request depend on the requests of the same tenant only |
| `RateLimit.RefusedForeverExactly` | api-service/internal/middleware/middleware.go:57-72 | every counted request is refused forever after exactly when the counter has reached 1000 and has no expiry |
| `RateLimit.LostExpiry` | api-service/internal/middleware/middleware.go:57-66 | if the first request's INCR reports an error after its effect, or its EXPIRE fails, the counter never expires |
| `RateLimit.LostExpiryLocksOut` | api-service/internal/middleware/middleware.go:57-72 | and then the tenant is locked out exactly after its thousandth request |
| `RateLimit.Itoa` | api-service/internal/middleware/middleware.go:77-95 | decimal digits without leading zeros denoting the number, except the smallest int64, which gives "-" |
| `RateInterleaved.MinuteBound` | api-service/internal/middleware/middleware.go:57-72 | with other requests between INCR and EXPIRE, and an EXPIRE that comes late or never, at most 1999 requests of a tenant counted in any minute pass, besides those let through because INCR failed |
| `RateInterleaved.FirstThousand` | api-service/internal/middleware/middleware.go:57-72 | whenever the EXPIRE comes, of the requests in the minute after a counter is created exactly the first 1000 pass |
| `RateInterleaved.SequentialIsInterleaved` | api-service/internal/middleware/middleware.go:57-72 | requests that come one after another have the same counter and verdicts as with both calls in one step |
| `RateInterleaved.BoundIsReached` | api-service/internal/middleware/middleware.go:57-72 | that bound is attained |

## Left out

- Sockets, deadlines, NATS, Redis, Postgres, JSON and logging: foreign calls. A connection is the bytes still to be read,
  Redis a map, tables maps or sequences, and each operation has an outcome given as a parameter.
- The record found by JSON decoding, and the devices table at the time of a lookup, are parameters.
- Coordinates, voltages and calendar time: kept as the raw integers or opaque times on the wire.
- Authentication handshakes, JWT, REST handlers, the admin panel, geofences, alerts and the frontend.
- Meaning of the fields of a JT808 location (hemisphere, ignition and alarm bits) and the replies the JT808 and GT06
  handlers send.
- Several packets on one AIS140 or TK103 connection: each call makes a new buffered reader, so only single lines are modelled.
- The channel capacities of the hub's three queues: pending sends are unbounded and taken in any order, which includes
  every order a bounded channel with blocked senders allows.
- Shutdown of the hub, of the TCP server and of the stream processor by context cancellation.
- `last_seen_at`, the 60-second expiry of the live snapshot, and the window in which the event stream drops a duplicate: an
  event dropped so is an operation without effect.
- Which record is processed by which process: `TripOverlap` lets any call be made by any process, but covers the trip
  machine only; the tenant lookup, the write and the acknowledgement around it are taken in one process.
- The limit of five deliveries per message: a run may deliver a message any number of times.
- The lock-out results and the independence of tenants take the two Redis calls of a request as one step.
- Redis expiry is modelled to the millisecond of a single clock; at the very expiry time either answer is allowed.
- Send of the connection registry, and the device id that the handler writes into parsed records.
