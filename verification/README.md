# go-mihome: verified models of its protocols and state machines

Dafny models of the parts of go-mihome that carry protocol state or wire arithmetic, with proofs
of what they are for: the CS2 receiver of the camera package, the Annex B splitter and writer and
the video bootstrap built on them, the LAN device runtime and its control gate, the LAN, MISS and
MIPS wire codecs, MIPS request matching, and the MIoT client that coordinates all backends.

Code that updates objects in place is modelled as classes and methods. Each method is proved equal
to a function of the old state, and the properties are lemmas about those functions, most of them
about whole runs: sequences of events, interleavings of locked sections, or lists of packets that
the network loses, repeats and reorders. Where the code meets a property only under a condition,
the condition is proved exact (lemmas ending in `Iff`).

| file | models |
|---|---|
| `Wrappers.dfy`, `Bytes.dfy`, `Decimal.dfy` | optional values, fixed-width integers, endianness, decimal text |
| `Cs2Channel.dfy`, `Cs2Reassembly.dfy`, `Cs2Network.dfy`, `Cs2Acks.dfy` | CS2 data channel: reordering, framing, acknowledgements over a lossy network |
| `AnnexB.dfy`, `Bootstrap.dfy` | Annex B byte streams (ITU-T H.264 and H.265), holding output until a decoder can start |
| `LanKeepalive.dfy`, `LanFlap.dfy`, `LanBackoff.dfy`, `LanGate.dfy`, `LanGateHistory.dfy`, `LanGateRaces.dfy` | LAN device liveness, flap suppression, doubling intervals, control gate, its history and its races |
| `Pkcs7.dfy`, `BlockModes.dfy`, `LanPacket.dfy`, `MissPayload.dfy`, `MipsEnvelope.dfy`, `WireFormats.dfy` | padding (section 6.3 of RFC 5652), cipher modes (sections 6.2 and 6.5 of NIST SP 800-38A), packet codecs, and their bytes on the wire |
| `MipsRequests.dfy` | matching replies to concurrent requests |
| `Coordinator.dfy`, `MIoTClient.dfy`, `RebindRaces.dfy`, `PropertyQueue.dfy`, `RefreshRaces.dfy`, `TimerSlots.dfy` | device aggregation, subscriptions that follow their push source and their races, the refresh queue and its races, timer slots |

`dafny verify dfyconfig.toml` checks the whole project.

MD5 is an arbitrary function to sixteen bytes, AES an arbitrary invertible sixteen-byte block function
per key, ChaCha20 an arbitrary key stream; random bytes, the clock, and what backends, transports
and listeners answer are parameters or nondeterministic choices. JSON texts are byte strings.

## Model

| member | source | states |
|---|---|---|
| Cs2Channel.DataChannel.constructor | camera/native_cs2.go:332-342 | a new channel awaits number 0, holds nothing, and buffers nothing when its push size is not positive |
| Cs2Channel.DataChannel.Push | camera/native_cs2.go:344-363 | the cutting loop, in place: new partial frame, queue and success are those of the recursive cutter |
| Cs2Channel.DataChannel.PushSeq | camera/native_cs2.go:365-394 | store, refuse, repeat or release, with the returned count and error, and the buffer after it |
| Cs2Channel.DataChannel.Pop | camera/native_cs2.go:396-399 | frames leave the queue in order, one at a time; an empty channel has ended exactly when it is closed |
| Cs2Channel.DataChannel.Close | camera/native_cs2.go:401-403 | the channel ends for readers once it is empty |
| Cs2Channel.MarshalCommand | camera/native_cs2.go:201-212 | header bytes, and that the rest of the packet is one frame for the peer's channel |
| Cs2Reassembly.DrainConserves | camera/native_cs2.go:344-363 | one cut loses, invents and moves no byte |
| Cs2Reassembly.FeedConserves | camera/native_cs2.go:344-363 | over any pushes, encoded frames plus the partial frame are all bytes pushed |
| Cs2Reassembly.CutMeaning | camera/native_cs2.go:344-363 | with a bounded queue: the added frames are a prefix of the unbounded cut, all of it exactly when they fit |
| Cs2Reassembly.FeedRests | camera/native_cs2.go:346-361 | what a channel may hold between pushes: no header alone is kept past its frame, sizes of 1 are never left waiting |
| Cs2Reassembly.EncodePrefix | camera/native_cs2.go:348-358 | the length prefix makes the frames of a stream unique |
| Cs2Reassembly.AnyChunking | camera/native_cs2.go:344-363 | whatever the packet boundaries, at most a short last frame is held back compared with one push |
| Cs2Reassembly.ChunkIndependentIff | camera/native_cs2.go:346-356 | delivered frames depend only on the bytes exactly when the last one is not 2 to 4 bytes with at most 4 bytes left counting what follows |
| Cs2Reassembly.CompleteStreamIff | camera/native_cs2.go:344-363 | after all bytes, all frames are out but possibly the last, which is outstanding exactly when it is empty, or has at most four bytes and some packet ended inside it |
| Cs2Network.WindowIff | camera/native_cs2.go:366 | the comparison of section 3.2 of RFC 1982 recovers the distance exactly from -32768 to 32767 |
| Cs2Network.ReleaseKeeps | camera/native_cs2.go:382-393 | releasing consumes the packet and its buffered successors in order and keeps the rest at their indices |
| Cs2Network.FramesArePrefix | camera/native_cs2.go:344-394 | in every run of the lossy, repeating, reordering network the frames delivered are a prefix of those sent, and are what pushing packets 0 to consumed - 1 in order delivers |
| Cs2Network.AllConsumedAllDelivered | camera/native_cs2.go:344-394 | once all packets are consumed all frames are delivered but possibly the last, with the exact packet boundaries that hold it back |
| Cs2Acks.ReleaseOkIff | camera/native_cs2.go:382-393 | releasing succeeds exactly when the frames completed by the packet and its buffered successors fit the pop buffer |
| Cs2Acks.ArrivalFailsIff | camera/native_cs2.go:365-394 | an arrival fails exactly when it is the awaited packet and its frames do not fit |
| Cs2Acks.AckSafeIff | camera/native_cs2.go:145-154 | in every run acknowledged packets are consumed or buffered exactly when every awaited packet that arrived had its frames fit |
| Cs2Acks.OverflowRun | camera/native_cs2.go:145-154 | for every buffer size a run in which an acknowledged packet is lost |
| Cs2Acks.AcknowledgedIff | camera/native_cs2.go:365-381 | an arrival is acknowledged exactly when it is not a new packet ahead of its turn at a full buffer; which arrivals change nothing |
| Cs2Acks.AllAckedAllConsumed | camera/native_cs2.go:145-154 | acknowledging packets 0 to n-1 means at least n packets have been consumed, across any number of wraps |
| Cs2Acks.BufferAtRest | camera/native_cs2.go:367-393 | the awaited number is never buffered, buffered ones are 1 to 32767 ahead, the bound holds |
| Cs2Acks.HalfAheadLost | camera/native_cs2.go:379-381 | just outside the window a packet is acknowledged and dropped |
| AnnexB.FindAnnexBPrefix | camera/probe_driver.go:283-295 | the scan loop finds the first three- or four-byte start code from an index, or none |
| AnnexB.SplitAnnexBNalus | camera/probe_driver.go:254-281 | the splitting loop terminates and yields the units of the recursive splitter |
| AnnexB.AnnexBPayload | camera/probe_stream.go:483-494 | the writing loop prints each unit behind a four-byte start code |
| AnnexB.SplitPrint | camera/probe_driver.go:254-281 | splitting undoes printing for non-empty units without 00 00 01 |
| AnnexB.SplitWellFormed | camera/probe_driver.go:254-281 | every split result is such a unit |
| AnnexB.SplitPrintSplit | camera/probe_driver.go:254-281 | split, print, split equals split for every byte string |
| AnnexB.RoundTripIff | camera/probe_stream.go:483-494 | exactly the lists of units that survive |
| AnnexB.SplitDropsJunk | camera/probe_driver.go:254-281 | bytes before the first start code belong to no unit |
| Bootstrap.CloneParameterSets | camera/native_bootstrap.go:69-78 | drops empty sets, keeps the order |
| Bootstrap.VideoBootstrap.CacheSets | camera/native_bootstrap.go:20-61 | the loop over units caches the last set of each kind and notices keyframes |
| Bootstrap.VideoBootstrap.PrepareInPlace | camera/native_bootstrap.go:12-67 | one call in place: state and output |
| Bootstrap.RunTracks | camera/native_bootstrap.go:12-67 | after any run the caches hold the newest set of each kind and `started` says some call was ready |
| Bootstrap.OutputOfRun | camera/native_bootstrap.go:12-67 | what each call of a run emits, stated over the payloads seen alone |
| Bootstrap.FirstOutputSplits | camera/native_bootstrap.go:37-42 | the first output splits into the newest parameter sets and the payload's units |
| Bootstrap.StartedStays | camera/native_bootstrap.go:37-66 | `started` never reverts |
| Bootstrap.H264SetsInOrder | camera/native_bootstrap.go:42-66 | in H.264 the newest units of types 7 and 8 are sent first, in this order |
| Bootstrap.H265SetsInOrder | camera/native_bootstrap.go:18-41 | in H.265 those of types 32, 33 and 34 |
| Bootstrap.KeyframeTypes | camera/native_bootstrap.go:27-55 | keyframes are type 5 of H.264 and types 16 to 21 of H.265 |
| LanKeepalive.PruneInPlace | lan.go:1160-1173 | filtering the slice over itself keeps exactly the later items, in order |
| LanKeepalive.KeepaliveMax | lan.go:1089-1097 | the maximum is at least the minimum unless four times the minimum overflows |
| LanKeepalive.LanDeviceState.constructor | lan.go:991-995 | an unknown device starts offline with an empty history |
| LanKeepalive.LanDeviceState.Record | lan.go:1020-1021 | prune and append, growing the buffer when it is full |
| LanKeepalive.LanDeviceState.RecordPingSuccess | lan.go:989-1033 | one success in place: record and report |
| LanKeepalive.LanDeviceState.LengthenInterval | lan.go:1001-1012 | the interval doubles between its bounds, or starts again at the minimum |
| LanKeepalive.LanDeviceState.RecordPingFailure | lan.go:1035-1063 | one failure in place: record and report |
| LanKeepalive.LanDeviceState.ForceOffline | lan.go:1251-1266 | one device of a forced offline |
| LanFlap.PruneSuffix | lan.go:1160-1173 | pruning a sorted history keeps a suffix |
| LanFlap.HistorySorted | lan.go:1020-1052 | in every run the history is sorted and in the past |
| LanFlap.TimeTestRedundant | lan.go:1175-1188 | after pruning, the time test of the flap check decides nothing |
| LanFlap.OnlineReportsLimited | lan.go:1014-1033 | in every run every window holds at most one online report fewer than the threshold |
| LanFlap.UnforcedReportsLimited | lan.go:1014-1063 | in every run every window holds at most the threshold of reports, not counting forced offlines |
| LanFlap.AllReportsLimited | lan.go:1014-1063 | without forced offlines these are all reports |
| LanFlap.OnlineIff | lan.go:1014-1029 | exactly when a success reports a device online |
| LanFlap.HistoryCounts | lan.go:1020-1052 | in every run the history counts exactly the turns of the device in any stretch within the window |
| LanFlap.OnlineByTurns | lan.go:1014-1029 | exactly when a success reports a device online, by the turns of the run |
| LanFlap.OfflineIff | lan.go:1044-1054 | a miss reports a device offline exactly when it completes the configured number in a row |
| LanFlap.SuppressionLasts | lan.go:1016-1026 | an offline device is not reported before its suppression has run out |
| LanFlap.FlapHeldBack | lan.go:1021-1024 | a device that flaps is not reported for the configured delay, or 300 seconds, whatever happens |
| LanFlap.FlapReleased | lan.go:1016-1029 | when that delay is over, and not before, a success reports it as soon as its window has room |
| LanFlap.ProbedAgain | lan.go:989-1063 | in every run, when a device was last seen and probed and when it is probed again |
| LanFlap.MissesOnRecord | lan.go:1035-1058 | in every run, the misses on record are those since the last success or since it went offline |
| LanFlap.UnsetSettings | lan.go:1069-1135 | which settings are used and what the others are |
| LanFlap.RetriesWhileOnline | lan.go:1039-1046 | while online, the retry count is the misses since the last success and below the threshold |
| LanFlap.IntervalOfRun | lan.go:1001-1012 | while online, the interval is the one after as many updates as successes since coming online |
| LanBackoff.ClosedFormIff | lan.go:1001-1012 | the n-th interval is min(max, min * 2^(n-1)) for all n exactly when doubling cannot overflow 64 bits |
| LanBackoff.KeepaliveBoundsIff | lan.go:1079-1097 | exactly the configurations whose probe intervals cannot overflow |
| LanBackoff.KeepaliveClosedForm | lan.go:996-1013 | the probe interval of an online device in closed form, failures in between or not |
| LanBackoff.BroadcastFormIff | lan.go:1099-1114 | exactly the configurations for which every broadcast interval has the closed form |
| LanBackoff.BroadcastClosedForm | lan.go:1137-1158 | the interval after the n-th broadcast since the interfaces were replaced |
| LanBackoff.Broadcaster.constructor | lan.go:189-203 | no broadcast has been sent |
| LanBackoff.Broadcaster.UpdateInterfaces | lan.go:213-219 | new interfaces restart the schedule |
| LanBackoff.Broadcaster.BroadcastTargets | lan.go:1137-1158 | broadcasts go to every interface when due; the n-th leaves the n-th interval and the next time |
| LanGate.LanGateClient.Start | lan.go:269-278 | enable, then run unless a gateway is present |
| LanGate.LanGateClient.Close | lan.go:281-286 | stop, mark devices offline, disable |
| LanGate.LanGateClient.Enable | lan.go:679-700 | listeners are told only of a change |
| LanGate.LanGateClient.Run | lan.go:731-768 | starting is idempotent and undone when listening fails |
| LanGate.LanGateClient.Stop | lan.go:770-784 | runtime and listener end together |
| LanGate.LanGateClient.MarkAllDevicesOffline | lan.go:1251-1266 | every device ends offline; exactly those that were online are reported |
| LanGate.LanGateClient.InFavour | lan.go:543-549 | whether any vote is in favour |
| LanGate.LanGateClient.VoteForLANControl | lan.go:538-567 | a vote decides enabling, running and what listeners are told |
| LanGate.LanGateClient.SetCentralGatewayPresent | lan.go:702-729 | a gateway blocks, its absence runs what is enabled |
| LanGate.RunningImpliesAllowed | lan.go:731-784 | in every run, running implies enabled and no gateway |
| LanGate.NoOnlineWhenNotAllowed | lan.go:1251-1266 | in every run, a disabled or blocked client has no online device |
| LanGate.SubscribersInformed | lan.go:679-729 | in every run, the last notification is what is the case |
| LanGate.RunsIffAllowed | lan.go:269-286 | after each deciding event the runtime runs exactly when allowed |
| LanGateHistory.BallotsHeld | lan.go:538-542 | in every run the vote map holds the last ballot under each key, and none without one |
| LanGateHistory.VoteCounts | lan.go:538-552 | after a vote LAN control is on exactly when some key's last ballot, this one included, is in favour |
| LanGateHistory.FlagsHeld | lan.go:679-729 | in every run LAN control is on, and a gateway present, as the events say |
| LanGateHistory.RuntimeHeld | lan.go:731-784 | in every run the runtime and its listener run exactly when the events say so |
| LanGateHistory.OnlineHeld | lan.go:1251-1266 | in every run exactly the devices are online of which the last heard answer said so, with no shut gate or deletion since |
| LanGateHistory.ToldWhen | lan.go:679-729 | listeners are told by every vote, and by anything else exactly when the gate opens or shuts |
| LanGateRaces.EscapedIff | lan.go:538-567 | with calls interleaved section by section, the runtime ends running behind a shut gate exactly when a call started it after the gate shut, or Close cleared the flag while it ran, and since then nothing has asked the gate to open nor stopped the runtime |
| LanGateRaces.MisinformedIff | lan.go:702-729 | listeners end with a wrong value exactly when some call told them old news, and since then no call has told the truth nor has the gate opened or shut |
| LanGateRaces.OvertakenVote | lan.go:538-567 | a vote against, overtaking a vote in favour, leaves the runtime running and listeners told that it may |
| LanGateRaces.StartInsideClose | lan.go:269-286 | so does a start between the halves of Close |
| Decimal.FormatParseIff | lan.go:1466 | formatting a parsed number gives the text back exactly when it is canonical |
| Decimal.SomeNumbers | lan.go:1466 | some texts and their numbers; leading zeros are read, signs and blanks are not |
| Pkcs7.Pkcs7Pad | lan_types.go:201-211 | the padding loop |
| Pkcs7.Pkcs7Unpad | lan_types.go:213-227 | the checking loop, with both error cases |
| Pkcs7.UnpadPad | lan_types.go:201-227 | unpadding undoes padding, which is block aligned |
| Pkcs7.PadUnpad | lan_types.go:213-227 | unpadding accepts only what padding produces |
| Pkcs7.UnpadIff | lan_types.go:213-227 | which text each padded string gives, and which strings are refused for their length |
| Pkcs7.RoundTripIff | lan_types.go:203-208 | the round trip holds for all data exactly for block sizes up to 255 |
| BlockModes.CbcInverse | lan_types.go:181-182 | CBC decryption undoes encryption |
| BlockModes.EcbInverse | camera/native_miss.go:312-324 | ECB decryption undoes encryption |
| BlockModes.CbcChains | lan_types.go:181-182 | each block is encrypted after exclusive or with the ciphertext before it, the first with the vector |
| BlockModes.CbcUnchains | lan_types.go:164-165 | and decrypted before it |
| BlockModes.EcbBlocks | camera/native_miss.go:316-323 | each block is encrypted alone |
| BlockModes.CtrCounts | camera/native_miss.go:325-327 | each block of the key stream encrypts its counter |
| BlockModes.CounterValue | camera/native_miss.go:325-327 | the counter is the vector plus the block's index, modulo 2^128 |
| BlockModes.XorBit | camera/native_miss.go:325-327 | a bit of the exclusive or is set exactly when the two bits differ |
| BlockModes.CbcEncryptInPlace | camera/native_miss.go:306-307 | the chaining loop over a buffer |
| BlockModes.CbcDecryptInPlace | camera/native_miss.go:308-310 | the unchaining loop over a buffer |
| BlockModes.EcbInPlace | camera/native_miss.go:316-323 | the block loop over a buffer |
| BlockModes.XorInPlace | camera/native_miss.go:325-327 | exclusive or with a key stream over a buffer |
| LanPacket.EqualBytes | lan_types.go:229-239 | true exactly for equal strings |
| LanPacket.BuildPacketMessage | lan_types.go:175-199 | the packet built in its buffer: header, checksum over the token, encrypted payload; or no packet for a bad identifier |
| LanPacket.ParsePacket | lan_types.go:136-173 | every check in order, then decryption, unpadding and trimming |
| LanPacket.ParseBuild | lan_types.go:136-199 | parsing a built packet, with anything appended, gives the payload without trailing NULs |
| LanPacket.ParseBuildIff | lan_types.go:165-166 | the payload itself comes back exactly when it does not end in NUL |
| LanPacket.LengthFieldIff | lan_types.go:188-191 | the sixteen-bit length field is right exactly up to 65535 bytes |
| LanPacket.DidFromBuildIff | lan.go:1459-1467 | the identifier read from a packet is the device's own exactly when that is canonical decimal |
| WireFormats.BuiltPacket | lan_types.go:175-199 | a built packet, field by field and block by block, with key and vector from the token |
| WireFormats.ParseIff | lan_types.go:136-173 | the packets, with anything appended, that parse to a text: exactly those with magic, own length, digest over the token and padded text inside |
| WireFormats.ParseErrors | lan_types.go:136-160 | which error each refused packet gets, in the order of the checks |
| WireFormats.AlteredChecksum | lan_types.go:147-154 | a built packet with another digest is refused for its digest |
| WireFormats.DidErrors | lan.go:1459-1467 | from which packets an identifier is read |
| MissPayload.PaddedLength | camera/native_miss.go:285-287 | padding is 16 to 31 bytes and block aligned |
| MissPayload.AesCryptInPlace | camera/native_miss.go:296-331 | each mode over a buffer, with its alignment and type errors |
| MissPayload.EncodePayload | camera/native_miss.go:234-259 | padding length, vector and encrypted body in one buffer, or the error |
| MissPayload.DecodePayload | camera/native_miss.go:261-283 | every check in order, then decryption and cutting |
| MissPayload.CameraInverse | camera/native_crypto.go:31-60 | the stream cipher payload comes back |
| MissPayload.DecodeEncode | camera/native_miss.go:234-331 | encoding succeeds exactly for types 0 to 3 with long enough keys, and then decoding undoes it |
| WireFormats.EncodedPayload | camera/native_miss.go:234-259 | an encoded payload, field by field and block by block, for each type |
| WireFormats.EncodeErrors | camera/native_miss.go:234-243 | why encoding fails |
| WireFormats.DecodedPayload | camera/native_miss.go:261-283 | what decoding yields for every input of types 1 to 3, and each refusal in the order of the checks |
| WireFormats.DecodedStream | camera/native_crypto.go:46-60 | what decoding yields for every input of type 0 |
| MipsEnvelope.WriteField | mips_types.go:200-213 | one field appended, with its terminator when asked |
| MipsEnvelope.Pack | mips_types.go:143-163 | identifier, optional sender and reply topic, payload, in this order |
| MipsEnvelope.Unpack | mips_types.go:166-198 | the field loop with its three errors |
| MipsEnvelope.UnpackFields | mips_types.go:168-196 | decoding is a left fold over the fields, unknown ones skipped |
| MipsEnvelope.UnpackIff | mips_types.go:166-198 | a string decodes to a message exactly when it encodes fields that the message summarises, last write winning |
| MipsEnvelope.UnpackConcat | mips_types.go:168-196 | decoding a concatenation merges the two decodes |
| MipsEnvelope.UnpackPack | mips_types.go:143-198 | unpacking a packed message gives it with trailing NULs cut from its byte fields |
| WireFormats.PackedEnvelope | mips_types.go:143-163 | a packed envelope, field by field with its type numbers |
| WireFormats.SmallEnvelope | mips_types.go:200-213 | one packed envelope byte by byte |
| WireFormats.UnpackErrors | mips_types.go:168-182 | why decoding stops after any decodable fields |
| WireFormats.FieldsThenStop | mips_types.go:168-196 | every byte string is decodable fields followed by nothing or by what stops decoding |
| WireFormats.FrameBytes | camera/native_cs2.go:348-351 | the four-byte length in front of a CS2 frame, most significant byte first |
| WireFormats.AnnexBBytes | camera/probe_stream.go:483-494 | every unit is written behind 00 00 00 01 |
| MipsRequests.BaseMipsClient.constructor | mips_client.go:32-39 | identifiers start at 1 |
| MipsRequests.BaseMipsClient.NextMessageId | mips_client.go:209-215 | hands out the next identifier, wrapping at 32 bits |
| MipsRequests.BaseMipsClient.AddPending | mips_client.go:106-108 | puts a channel on the table |
| MipsRequests.BaseMipsClient.DeletePending | mips_client.go:217-221 | takes an identifier off the table |
| MipsRequests.BaseMipsClient.TakePending | mips_client.go:173-176 | finds and removes in one section |
| MipsRequests.BaseMipsClient.InstallReplySub | mips_client.go:158-164 | the first subscription stays, a later one is refused |
| MipsRequests.BaseMipsClient.TakeAll | mips_client.go:49-55 | closing empties the table and takes the subscription |
| MipsRequests.ReturnsOwnReply | mips_client.go:88-130 | in every interleaving a request returns only a reply with its own identifier |
| MipsRequests.SharedIdsIff | mips_client.go:209-215 | two requests carry the same identifier exactly when a multiple of 2^32 draws lies between theirs |
| MipsRequests.NoSharedIds | mips_client.go:209-215 | requests that drew within 2^32 draws of each other have different identifiers |
| MipsRequests.SameIdIff | mips_client.go:212-213 | identifiers repeat exactly after 2^32 draws |
| MipsRequests.SendNeverBlocks | mips_client.go:178-180 | the handler's send finds its channel empty |
| MipsRequests.AtMostOneReply | mips_client.go:123-126 | nothing is left for a request that has returned |
| MipsRequests.OnTableIff | mips_client.go:106-108 | a listening request is on the table exactly when, since it was put there, no close, no reply with its identifier, and no other request with its identifier has taken it off |
| MipsRequests.DroppedIff | mips_client.go:173-180 | a reply is dropped exactly when no listening request with its identifier has been left on the table |
| MipsRequests.NewerDisplaces | mips_client.go:106-108 | a request takes the place of an older one with its identifier |
| MipsRequests.RemoveTakesOthers | mips_client.go:217-221 | a request that gives up takes another's entry with its identifier off the table |
| MipsRequests.Displaced | mips_client.go:209-215 | a run of 2^32 + 1 draws in which a waiting request is displaced and its replies go to the newer one |
| MipsRequests.FinishedNotOnTable | mips_client.go:126-129 | replies after a request has finished are late or duplicate |
| MipsRequests.ReplyReaches | mips_client.go:167-181 | a reply for a waiting request that nothing has taken off the table reaches it and is returned |
| MipsRequests.OneReplySubscription | mips_client.go:143-165 | with no setup or close under way, only the installed reply subscription is open |
| Coordinator.AggregatedAlways | client.go:1861-1903 | in every run each device's state and push source are those its flags call for |
| Coordinator.PushingIsOnline | client.go:1877-1893 | in every run a device that any backend pushes for is online |
| Coordinator.ShownAfterRun | client.go:1861-1903 | after any run, which devices are known, their state and push source, stated over what cloud, gateways and LAN said last |
| Coordinator.GatewayHeld | client.go:1428-1493 | in every run the gateway flags are those of the newest list that names the device or comes from its group |
| Coordinator.CloudHeld | client.go:904-982 | in every run the cloud flags are those of the newest refresh or report, and a lost connection denies online until the next |
| Coordinator.GatewayDisconnect | client.go:1428-1451 | an empty list clears exactly the devices still in the gateway's group |
| Coordinator.StaleGatewayRoute | client.go:925-927 | a device moved to another group by a cloud refresh keeps its old gateway route |
| Coordinator.CloudTwoPasses | client.go:913-930 | the two passes of a cloud refresh amount to one update |
| Coordinator.ExplainsCompose | client.go:913-930 | the changes of two passes together account for the step, also when both touch a device |
| Coordinator.ReplayedAfter | client.go:1730-1742 | notifications appended for a change list keep the replay property |
| MIoTClient.OpenIffActive | client.go:1626-1668 | handles opened minus closed is one for an active live subscription and zero otherwise |
| MIoTClient.LanServed | client.go:1680-1684 | a live subscription of a device that the LAN pushes for holds exactly one open handle |
| MIoTClient.Client.AskBackend | client.go:1670-1714 | a backend call, on record; the LAN always gives a handle |
| MIoTClient.Client.constructor | client.go:246-287 | a new client has no devices and no subscriptions |
| MIoTClient.Client.SubscribeFromSource | client.go:1670-1714 | a backend that exists is asked once and its handle recorded; any other source gives none |
| MIoTClient.Client.Rebind | client.go:1626-1668 | the subscription is untouched if it is on its device's push source; otherwise its old handle is closed once, the new source's backend is asked once if there is one, and what that gave is active |
| MIoTClient.Client.RebindSubscriptionsForDevice | client.go:1602-1624 | all live subscriptions of the device and no others are moved, each with one call to its new backend |
| MIoTClient.Client.Subscribe | client.go:1351-1405 | a subscription starts on its device's push source; unknown devices are refused |
| MIoTClient.Client.CloseSubscription | client.go:1369-1376 | closing once keeps the handle account; closing again closes the handle again |
| MIoTClient.Client.CloseAll | client.go:478-525 | closing the client leaves every handle closed exactly once |
| MIoTClient.Client.HandleChanges | client.go:1730-1742 | restores every rest-state property from the changes and emits their notifications |
| MIoTClient.Client.UpdateEach | client.go:1861-1875 | recomputing devices in any order gives the same registry and an accurate change list |
| MIoTClient.Client.RefreshCloudDevices | client.go:904-941 | a cloud refresh, all rest-state properties kept |
| MIoTClient.Client.RefreshCloudDevicesByDID | client.go:944-982 | a refresh of some devices, empty identifiers passed over, all rest-state properties kept |
| MIoTClient.Client.HandleCloudDisconnected | client.go:596-616 | loss of the cloud, all rest-state properties kept |
| MIoTClient.Client.HandleCloudDeviceState | client.go:1587-1600 | one cloud device report, all rest-state properties kept |
| MIoTClient.Client.UpdateGatewayDevices | client.go:1428-1493 | a gateway's device list, all rest-state properties kept |
| MIoTClient.Client.UpdateLANDevices | client.go:1495-1536 | the LAN device list, all rest-state properties kept |
| MIoTClient.Client.Refresh | client.go:904-982 | any one of the above |
| MIoTClient.Client.Perform | client.go:1351-1404 | any sequence of refreshes, connection changes, subscribes, single closes and client closes, up to the first close that would close a handle again, keeps every rest-state property |
| RebindRaces.AccountedIff | client.go:1626-1646 | with rebinds and closes interleaved read by read and write by write, every handle ends closed once, but a live subscription's active one not at all, exactly when none was loaded twice, none was overwritten unloaded, and none was left in a closed subscription |
| RebindRaces.ClosedTwiceIff | client.go:1634-1637 | a handle ends closed more than once exactly when it was loaded after someone had loaded it |
| RebindRaces.LeakedIff | client.go:1638-1645 | a handle ends open and forgotten exactly when the record was overwritten while it named it and nobody had loaded it |
| RebindRaces.TwoRebinds | client.go:1626-1646 | two rebinds at once close one handle twice and leak another |
| RebindRaces.CallsCleared | client.go:1634-1635 | or one calls a handle the other has cleared |
| RebindRaces.ClosedWhileBinding | client.go:1369-1377 | a subscription closed while it is being bound keeps an open handle |
| PropertyQueue.KeyInjective | client.go:1844-1846 | the queue key determines the query |
| PropertyQueue.SomeKeys | client.go:1844-1846 | two keys, written out |
| PropertyQueue.PropertyRefresher.RequestRefreshProperty | client.go:1085-1098 | queues a known device's property and arms the timer if it is not |
| PropertyQueue.PropertyRefresher.TakeBatch | client.go:1150-1162 | at most 150 keys leave the queue, all of them when there are fewer |
| PropertyQueue.PropertyRefresher.FirstPerDevice | client.go:1926-1937 | one query of every device |
| PropertyQueue.PropertyRefresher.AskEach | client.go:1179-1190 | one route is asked once for every device |
| PropertyQueue.PropertyRefresher.SendBatch | client.go:1165-1203 | cloud first, then gateway, then LAN; what counts as answered and as progress |
| PropertyQueue.PropertyRefresher.Start | client.go:296-304 | the client runs |
| PropertyQueue.PropertyRefresher.Close | client.go:445-468 | timer, retries and context go, the queue stays |
| PropertyQueue.PropertyRefresher.RollbackStart | client.go:393-408 | a failed start leaves the slot set although its goroutine ends |
| PropertyQueue.PropertyRefresher.Cycle | client.go:1143-1212 | a cycle leaves exactly the old keys minus the answered ones |
| PropertyQueue.PropertyRefresher.RefreshQueuedProperties | client.go:1101-1110 | a caller's own cycle fails exactly when a queue was there and nothing came of it |
| PropertyQueue.PropertyRefresher.Decide | client.go:1114-1140 | what follows a cycle: armed again, retried, given up or done |
| PropertyQueue.PropertyRefresher.HandleQueuedPropertyRefresh | client.go:1112-1141 | what happens to queue, timer and retry count after a cycle |
| PropertyQueue.BatchSize | client.go:1150-1162 | a cycle sends 150 queries, or all there are |
| PropertyQueue.CloudDecides | client.go:1167-1177 | when the cloud names anything, or the mode is not automatic, it alone decides what is answered |
| PropertyQueue.LocalRoutesDecide | client.go:1177-1203 | otherwise the gateway decides when it would answer all of some device, and the LAN when it would answer nothing |
| PropertyQueue.LocalRoutesExact | client.go:1177-1203 | with one query of each device, exactly what the gateway answers, and if that is nothing the LAN |
| PropertyQueue.RetryHeld | client.go:1112-1141 | in every run the retry count is the failures in a row, at most two |
| PropertyQueue.QueuedIff | client.go:1085-1141 | in every run exactly the queries are queued that were requested and since then neither answered, taken by a caller's refresh, nor given up after three failures in a row |
| PropertyQueue.ProgressIff | client.go:1165-1203 | progress means an answered key exactly when the cloud answers some key of the batch or nothing |
| PropertyQueue.RoundFallsIff | client.go:1112-1141 | (queue size, 3 - retries) falls exactly when the cloud answers some key of the batch or nothing |
| PropertyQueue.ForeignAnswersStall | client.go:1167-1176 | with a cloud that answers one foreign key, any number of cycles leaves the queue as it was |
| PropertyQueue.DrainsInTime | client.go:1112-1141 | when the cloud names only requested keys, at most three cycles for each queued key empty the queue |
| PropertyQueue.DrainsDespiteStalls | client.go:1112-1141 | whatever is answered, three cycles for each key and each stalling cycle empty the queue |
| PropertyQueue.StrandedIff | client.go:1085-1098 | in every run a started client has keys waiting and no timer set exactly when a start found it so and no known request, stray timer, stop or emptying refresh has come since |
| PropertyQueue.RestartStrands | client.go:445-468 | closing with work waiting and starting again is such a run |
| PropertyQueue.DeadSlotIff | client.go:393-408 | the slot is set under a cancelled context exactly when a failed start left it so, and since then no close, no late timer of its own and no stray handler has cleared or renewed it |
| PropertyQueue.FailedStartStrands | client.go:393-408 | after that a started client queues requests without setting a timer |
| RefreshRaces.StrippedIff | client.go:1112-1141 | with requests, handlers and callers' refreshes interleaved section by section, keys end without a timer exactly when a handler dropped the timer of keys it had not seen, or a caller's refresh put keys back after the timer had gone, and since then no goroutine has set the timer, given the queue up or taken all of it |
| RefreshRaces.LateRequestStripped | client.go:1122-1124 | a request between a handler's last look and its cancel loses its timer |
| RefreshRaces.PutBackStripped | client.go:1205-1211 | so does a key put back after the cancel |
| TimerSlots.SlotTable.ScheduleSlot | client.go:781-791 | a new channel replaces and closes the slot's old one |
| TimerSlots.SlotTable.TakeSlot | client.go:717-731 | cancelling takes the channel out of its slot |
| TimerSlots.SlotTable.TakeEverySlot | client.go:446-474 | closing takes every slot's channel |
| TimerSlots.SlotTable.ReleaseSlot | client.go:802-807 | a fired goroutine frees the slot only if it still holds its channel |
| TimerSlots.ClosedAtMostOnce | client.go:669-866 | in every interleaving each stop channel is closed at most once |
| TimerSlots.ChannelIff | client.go:669-866 | in every interleaving, whether a channel is in its slot, about to be closed, and closed, from the events alone |
| TimerSlots.AtMostOneWaiter | client.go:669-866 | per slot at most one goroutine waits on an open channel, plus one for each cancel half done |
| TimerSlots.SlotDeadIff | client.go:793-808 | the goroutine of a channel in its slot is gone exactly when it has seen the runtime context end |

## Left out

- Sockets, dialing, tickers, contexts, logging, HTTP, JSON, certificates, key agreement, paho, zeroconf, RTSP and FFmpeg: nothing to state without what they wrap.
- Cs2Channel.DataChannel.Push: a pop buffer of size 0, where Go's send succeeds only if a reader is waiting, counts as full; the Go code makes buffers of 10 and 100.
- Cs2Channel.DataChannel.Pop: an empty open channel answers that nothing is there yet, where Go blocks.
- Cs2Network.FramesArePrefix: packets outside the window of 32768 behind to 32767 ahead are assumed not to arrive; Cs2Network.WindowIff and Cs2Acks.HalfAheadLost say why that is needed.
- LanPacket.ParseBuild: payloads whose packet exceeds 65535 bytes are excluded, since their length field wraps (LengthFieldIff) and what the arbitrary MD5 makes of the shorter packet is unknown.
- LanKeepalive.LanDeviceState.RecordPingSuccess: points in time are unbounded integers, and the counters of missed pings do not overflow; durations are 64-bit and do wrap.
- MIoTClient.Client.UpdateEach: registry entries are values in a map rather than shared records, so aliasing of an entry is not captured; entries never leave the client except as copies. The same holds for subscription records, which are kept after they are closed.
- Coordinator.AggregatedAlways: of a device's description only the group identifier is kept; names, models, tokens and rooms affect no modelled decision.
- MIoTClient.Client.Perform: handlers run to completion one after another. RebindRaces interleaves the handlers of one subscription, with a push source that changes at will.
- RebindRaces.AccountedIff: each racing read or write of a field is one step, where Go leaves torn reads open.
- PropertyQueue.DrainsInTime: no request arrives while the queue is drained; RefreshRaces has requests at any moment.
- RefreshRaces.StrippedIff: the client stays started; there, a set slot counts as a timer.
- LanGate.NoOnlineWhenNotAllowed: each call is one step. Section by section (LanGateRaces) the runtime and the listeners are followed, not the devices: one that answers a ping begun before the gate shut can be marked online after it.
- TimerSlots.AtMostOneWaiter: a goroutine waits from the moment its slot is set, and the timers' own Stop calls are not modelled, so a fired timer may win against a closed channel, as Go's select allows.
- MipsRequests.ReturnsOwnReply: topics and payload decoding play no part.
- Property reads, writes and actions over the routing rules, OAuth and certificate refresh, cloud state subscriptions, LAN push subscriptions and uplink deduplication: easy beside what is here.
- Spec parsing, entity mapping, translations, storage, discovery and the JPEG scan loop: tables, strings and I/O.
