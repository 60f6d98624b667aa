# Steam streaming evidence harness: a verified model

The `scripts/` of the repository drive an original streaming client and record what it does. They
also contain algorithms of their own: an emulated heap with string storage, wire formats, reactive
peers that play the host, log accumulators, and recovery and stop protocols. This project models
those algorithms and proves what they are relied on for.

Code that works by changing things is a class or a method with loops (`StringHeap.Shell`, the peers,
`GapPolicy.Decoder`, `AudioStop.Stop`, the parsers, printers and summaries). Each is proved equal to
a specification function, and the properties are lemmas about that function over every input, every
run or every interleaving. Python integers are unbounded and so is `int` here; field widths of
`struct` appear where they bound or truncate. An exception of any kind is `Raised`, `None` or
`ok == false`; the serving loop of the peers ends at the first one
(`scripts/audit-steam-client-udp-process.py:154-206`), so a run is a list of events up to there.

| file | what it models |
|---|---|
| `Bytes.dfy` | bytes, little-endian integers, bits, exclusive or |
| `Crc32c.dfy` | CRC32C framing of datagrams, polynomial of section 12.1 of RFC 3720 |
| `AuthenticatedCbc.dfy` | sequence number, MAC as IV, PKCS#7 padding (section 6.3 of RFC 5652), CBC (section 6.2 of NIST SP 800-38A), for any block cipher and any MAC function |
| `WireFields.dfy` | varints and length-delimited fields (Protocol Buffers Encoding, "Base 128 Varints") |
| `DiscoveryPacket.dfy` | length-prefixed packets and the in-place change of their account field |
| `StringHeap.dfy` | bump allocator, string headers with inline and heap forms, the string adapters, `freeze`, all over one byte array |
| `Peers.dfy`, `ControlChannel.dfy` | authentication and negotiation peers; what every subclass says on the control channel |
| `Messages.dfy` | what packets and messages mean to whoever reads them |
| `VideoPeer.dfy`, `GapPeer.dfy`, `AudioPeer.dfy`, `LoadPeer.dfy`, `PressurePeer.dfy`, `Pacing.dfy` | the subclasses with media, barriers, faults, repair and a clock |
| `GroupAssembly.dfy`, `PerfSummary.dfy`, `QueueSummary.dfy`, `Stretches.dfy` | the log accumulators |
| `GapPolicy.dfy`, `AudioStop.dfy` | audio gap recovery and the two-thread stop |
| `Worklist.dfy` | the dependency worklist |

Where the code does less than its intent, the exact condition is proved:

- A case with a bad MAC shifts the init and configuration ids by one but not the start of the
  stream, so id 4 goes out twice as soon as both have been sent, and only then
  (`ControlChannel.SentOnceIff`, a concrete session in `VideoPeer.BadMacRepeats`). This is about the
  classes: the repository's one case with a bad MAC
  (`scripts/audit-steam-client-negotiation-process.py:266-270`) runs the negotiation peer, which
  never starts a stream.
- The byte-2 assertion of the packet surgery is meant for one-octet results. It also passes for the
  two-octet results 2176 to 2303, and no others (`DiscoveryPacket.AssertionHoldsIff`); there the
  surgery cuts one octet off the place, and is still right only for the accounts of
  `DiscoveryPacket.WideResultSurgery`.
- The closed form for audio decode calls is the exact number of calls if and only if the last frame
  listed is within reach of those before it or repeats the furthest of them, and the furthest frame
  reached lies less than a turn of 65536 ids from the first (`GapPolicy.ClosedFormIff`).
  `GapPolicy.ClosedFormFails` gives a failing list for either half.
- The two varint printers print any number; the parser reads back exactly those below 2^70
  (`WireFields.VarintReadIffBelowLimit`).

The original audio decoder is not part of the repository. `GapPolicy` states the policy as the
generalisation of the table in `scripts/audio-gap-stimuli.py` and proves every row of that table.

`ControlChannel.Sound` is what holds of a peer's control channel after any sequence of datagrams:
the ids sent are exactly those its flags account for, every encrypted packet has its id two above its
crypto sequence number, and, in a case with an authentication response, when the client's first
messages of types 6, 1, 4 and 5 come in that order (however often anything is repeated), the log
besides the stop is a prefix of the one script that the case and the first message of type 4
determine. `SoundMeans` and `OneScript` spell this out, and every subclass is proved to keep it on
every run. The peers' classes are connected to those runs by their `Serve` methods.

## Model

| member | source | states |
|---|---|---|
| Crc32c.Crc | scripts/audit-steam-client-udp-process.py:55-61 | the byte-wise loop with shifts and masks computes the complemented serial register over all bits in wire order |
| Crc32c.StripCrc | scripts/audit-steam-client-udp-process.py:64-68 | the trailer is checked as an integer and removed; unflagged datagrams pass as they are, empty and short flagged ones raise |
| Crc32c.SealDatagram | scripts/audit-steam-client-auth-process.py:70-75 | flag set and checksum appended, except for kind 2 or when the case has no CRC |
| Crc32c.StripSealed | scripts/audit-steam-client-auth-process.py:70-75 | stripping what was sealed gives the input back with only the top bit of byte 0 changed |
| Crc32c.AcceptedIffResidue | scripts/audit-steam-client-udp-process.py:64-68 | a flagged datagram is accepted if and only if the register over the whole of it, trailer included, ends at one constant |
| Crc32c.RunLinear | scripts/audit-steam-client-udp-process.py:55-61 | the register is linear over GF(2) in start value and data |
| Crc32c.ShiftKeepsNonzero | scripts/audit-steam-client-udp-process.py:59-60 | one step of the register loses nothing |
| Crc32c.FeedBits | scripts/audit-steam-client-udp-process.py:57-60 | consuming up to 32 bits one at a time is adding them at once and shifting |
| Crc32c.ChangeAccepted | scripts/audit-steam-client-udp-process.py:64-68 | another flagged datagram of the same length passes if and only if the difference is a code word |
| Crc32c.BurstRejected | scripts/audit-steam-client-udp-process.py:64-68 | every nonzero change within 32 consecutive bits, in body or trailer, that leaves the flag set is rejected |
| Crc32c.PolynomialExponents | scripts/audit-steam-client-udp-process.py:60 | the constant is the polynomial of the standard, reflected, exponent by exponent |
| Crc32c.FourOnes | scripts/audit-steam-client-udp-process.py:55-61 | a check value: four octets 255 have the checksum 0xFFFFFFFF |
| AuthenticatedCbc.CbcRoundTrip | scripts/audit-steam-client-negotiation-process.py:91-99 | CBC decryption inverts encryption on whole blocks, for any block bijection |
| AuthenticatedCbc.CbcInverse | scripts/audit-steam-client-negotiation-process.py:91-99 | and encryption inverts decryption |
| AuthenticatedCbc.CbcChains | scripts/audit-steam-client-negotiation-process.py:91-92 | each cipher block enciphers its plain block combined with the cipher block before it, the first with the IV |
| AuthenticatedCbc.XorBlockBits | scripts/audit-steam-client-negotiation-process.py:91-92 | blocks are combined bit by bit |
| AuthenticatedCbc.UnpadInvertsPad | scripts/audit-steam-client-negotiation-process.py:89-102 | on whole blocks the padding check accepts exactly what padding produces |
| AuthenticatedCbc.PadOctets | scripts/audit-steam-client-negotiation-process.py:89-90 | every octet of the padding is its length, behind the unchanged plaintext |
| AuthenticatedCbc.DecryptedIffEncrypted | scripts/audit-steam-client-negotiation-process.py:84-104 | `decrypted` returns a sequence and body if and only if the data is what `encrypted` makes of them |
| AuthenticatedCbc.BadMacRejected | scripts/audit-steam-client-negotiation-process.py:84-103 | what `encrypted` makes with `bad_mac` always raises, whatever the MAC function |
| AuthenticatedCbc.EncryptedParts | scripts/audit-steam-client-negotiation-process.py:84-92 | the IV in front is the MAC over sequence number and body, with one bit flipped for a bad one |
| AuthenticatedCbc.HandoffModes | scripts/audit-steam-control-handoff.py:82-98 | the padding stage returns the plaintext for a valid ciphertext that fits, flips one bit of it for a bad MAC, and refuses a short one |
| AuthenticatedCbc.FlippedIv | scripts/audit-steam-control-handoff.py:162-174 | a bit flipped in the IV flips that bit of the plaintext and nothing else |
| WireFields.PrintVarint | scripts/audit-steam-client-presets.py:94-99 | the loop prints base-128 digits, least significant first, all but the last marked |
| WireFields.VarintAt | scripts/audit-steam-client-negotiation-process.py:51-60 | the ten-round reader, running off the end and an eleventh digit both raise |
| WireFields.VarintFound | scripts/audit-steam-client-negotiation-process.py:51-60 | reading at an offset gives a value and an end if and only if the octets between are a varint of that value within the digits left |
| WireFields.ParseFields | scripts/audit-steam-client-negotiation-process.py:62-81 | the loop over fields terminates with the parse, or raises |
| WireFields.FieldsIffTiled | scripts/audit-steam-client-negotiation-process.py:48-81 | accepted with these fields if and only if the input is tiled by them; a slice over the end is caught |
| WireFields.OneParse | scripts/audit-steam-client-negotiation-process.py:48-81 | no input has two parses |
| WireFields.FieldsRoundTrip | scripts/audit-steam-client-negotiation-process.py:48-81 | printing any fields with numbers below 2^70 and parsing gives them back |
| WireFields.VarintReadIffBelowLimit | scripts/audit-steam-control-wire.py:27-33 | a printed number is read back if and only if it is below 2^70, and raises otherwise |
| DiscoveryPacket.UnframeInvertsFrame | scripts/audit-steam-authorization-admission.py:88-90 | header and body are recovered from a framed packet |
| DiscoveryPacket.RewriteKeepsFrame | scripts/audit-steam-account-metadata.py:139-147 | on any framed packet the surgery frames the same header and the edited body, or raises on byte 2 |
| DiscoveryPacket.ExpectedParses | scripts/audit-steam-authorization-admission.py:76-87 | the bodies built parse into result, account, key and token fields |
| DiscoveryPacket.HeaderSays | scripts/audit-steam-authorization-admission.py:87-88 | the header parses into the client and the number 4 |
| DiscoveryPacket.AssertionHoldsIff | scripts/audit-steam-account-metadata.py:145 | the byte-2 assertion passes if and only if the result is below 128 or its second octet is 17 |
| DiscoveryPacket.SurgeryIsRebuilding | scripts/audit-steam-account-metadata.py:139-147 | for results below 128 the surgery equals building the packet with the account replaced or absent |
| DiscoveryPacket.SurgeryReplacesAccount | scripts/audit-steam-account-metadata.py:139-147 | read with `fields`: same header, same fields, the account field replaced or removed |
| DiscoveryPacket.WideResultSurgery | scripts/audit-steam-account-metadata.py:145-147 | for the other results that pass, the exact accounts for which the outcome is still right |
| StringHeap.Shell.MemWrite | scripts/audit-steam-client-fec-policy.py:107-114 | the bytes written and nothing else |
| StringHeap.Shell.Alloc | scripts/audit-steam-client-fec-policy.py:116-120 | the old mark rounded up by 16, failing at the end of the arena with the mark already moved |
| StringHeap.Shell.CString | scripts/audit-steam-client-fec-policy.py:129-134 | length up to the NUL, or failure at 8192 bytes |
| StringHeap.CLengthIsFirstNul | scripts/audit-steam-client-fec-policy.py:129-134 | the length is that of the bytes before the first NUL in reach |
| StringHeap.Shell.StoreString | scripts/audit-steam-client-config.py:173-177 | buffer, terminator and the three header words, in fresh memory |
| StringHeap.Shell.Hook | scripts/audit-steam-client-config.py:138-178 | one adapter call on raw memory, with its failures; empty moves and fills touch nothing, checked moves fail when longer than the room |
| StringHeap.Shell.Execute | scripts/audit-steam-client-config.py:138-178 | a run of adapter calls |
| StringHeap.StoreRefines | scripts/audit-steam-client-config.py:173-177 | memory that stands for a map of strings stands, after a store, for the map with that one string changed |
| StringHeap.StepRefines | scripts/audit-steam-client-settings-io.py:73-85 | each of assign, append, both resizes, copy, init, freeze and raw writes acts on memory as its pure meaning acts on the map |
| StringHeap.AdapterBytes | scripts/audit-steam-client-settings-io.py:73-85 | byte by byte: assign and init leave the bytes at the source, up to a NUL for C strings; append leaves the old string and then those; copy the string copied; resize the beginning of the old string and then the fill |
| StringHeap.StoreLayout | scripts/audit-steam-client-config.py:173-177 | capacity, made odd, length and address in three words, and the bytes with a NUL at the address |
| StringHeap.InlineDecodes | scripts/audit-steam-client-config.py:165-168 | an inline header decodes to the bytes behind octet 0, half of which is their number |
| StringHeap.RunRefines | scripts/audit-steam-client-config.py:158-178 | after any run, decoding every header from raw memory gives what a run on the map alone holds, where a copy takes the map's string and a source may be a piece of any string of the map, the destination included |
| StringHeap.FromNothing | scripts/audit-steam-client-presets.py:64-79 | the same from memory without strings, which `__init` turns into headers |
| StringHeap.EveryRunDenoted | scripts/audit-steam-client-settings-io.py:73-85 | every admissible run is the run of some calls on the map |
| StringHeap.SelfSource | scripts/audit-steam-client-config.py:164-178 | assigning or appending a piece of the destination's own buffer takes that piece of the old string |
| StringHeap.SourceInsideString | scripts/audit-steam-client-config.py:164-169 | reading inside a string's buffer reads that slice of the string |
| StringHeap.FreezeRefines | scripts/audit-steam-client-config.py:46-49 | a snapshot adds, for each header it covers, a header that decodes to the same string |
| StringHeap.FrozenForever | scripts/audit-steam-client-config.py:46-49 | and keeps decoding to it through any later run that does not write to the snapshot itself |
| StringHeap.RawRefines | scripts/audit-steam-client-config.py:144-155 | memory writes clear of headers and buffers change no string |
| Peers.DatagramStrips | scripts/audit-steam-client-auth-process.py:70-87 | what leaves the socket strips back to its packet, flag aside, the connect reply included |
| Messages.WireReads | scripts/audit-steam-client-auth-process.py:92-95 | the packet header read back field by field |
| Messages.ConnectReply | scripts/audit-steam-client-auth-process.py:78-88 | the reply to a connect carries the client's address octet and its four octets from the ninth on |
| Peers.Peer.CallAuth | scripts/audit-steam-client-auth-process.py:77-108 | connect, handshake and response replies, each once, and the calls that raise |
| Peers.Peer.CallNegotiate | scripts/audit-steam-client-negotiation-process.py:112-155 | init (twice for a bad MAC) and configuration, each once, and the calls that raise |
| Messages.NegotiatedIff | scripts/audit-steam-client-negotiation-process.py:138-146 | a message agrees on v exactly when it decrypts under sequence 0 to fields whose first with number 1 and kind 2 is v, shorter than 128 bytes |
| Messages.ConfigAnswered | scripts/audit-steam-client-negotiation-process.py:138-155 | the answer decrypts under sequence 1, or 2 for a bad MAC, to one field with number 1 that holds what was agreed on |
| Messages.InitSays | scripts/audit-steam-client-negotiation-process.py:118-122 | init parses into reliability, 3 and 4 |
| Messages.ScriptSays | scripts/audit-steam-client-negotiation-process.py:123-155 | the script entry by entry: the two given bodies, a bad init that does not decrypt, init, the agreed configuration and the start, with their sequence numbers and fields |
| Messages.AgreedFirst | scripts/audit-steam-client-negotiation-process.py:138-146 | a run agrees on what its first message of type 4 says |
| Messages.StartVideoSays | scripts/audit-steam-client-media-process.py:142-146 | the body of StartVideo parses into its four fields |
| Messages.StartAudioSays | scripts/audit-steam-client-audio-process.py:120-127 | the body of StartAudio parses into its four fields, the rate 48000 among them |
| Messages.StopSays | scripts/audit-steam-client-media-process.py:178-185 | the stop decrypts under sequence 3 to nothing |
| Peers.NegotiateUntouched | scripts/audit-steam-client-negotiation-process.py:112-155 | neither touches the media channel, the start or the stop |
| ControlChannel.NegotiateAccounted | scripts/audit-steam-client-negotiation-process.py:112-155 | after any call the control ids sent are those the flags account for, and encrypted packets have id = sequence + 2 |
| ControlChannel.NegotiateOnScript | scripts/audit-steam-client-negotiation-process.py:112-155 | a message in order leaves the log a prefix of the script, which a first message of type 4 settles |
| ControlChannel.SentOnceIff | scripts/audit-steam-client-negotiation-process.py:131-155 | each control id is sent at most once, except in a case with a bad MAC that has sent both configuration and start |
| ControlChannel.ScriptIds | scripts/audit-steam-client-auth-process.py:91-108 | the script's ids are consecutive; with a bad MAC the last one repeats |
| ControlChannel.NegotiateSound | scripts/audit-steam-client-negotiation-process.py:112-155 | soundness is kept by authentication and negotiation for any datagram |
| ControlChannel.StartSound | scripts/audit-steam-client-media-process.py:139-148 | and by the start that answers a message of type 5 |
| ControlChannel.StopSound | scripts/audit-steam-client-media-process.py:177-185 | and by the stop, which adds id 5 once |
| ControlChannel.SoundMeans | scripts/audit-steam-client-negotiation-process.py:107-155 | sound means: ids once (with the exception), at most one stop, and a log that is a prefix of the script settled by the first message of type 4 when the first arrivals are in order |
| ControlChannel.OneScript | scripts/audit-steam-client-negotiation-process.py:138-155 | the script is one for the run: what was said earlier is a prefix of the script the whole run settles |
| VideoPeer.Peer.Call | scripts/audit-steam-client-media-process.py:118-185 | early stop on acknowledgement, start with the media packets in case order, stop on request |
| VideoPeer.Peer.Serve | scripts/audit-steam-client-udp-process.py:162-174 | the loop over what arrives, up to the first exception, is the run the properties are about |
| VideoPeer.EveryRunSound | scripts/audit-steam-client-media-process.py:113-185 | soundness on every run of datagrams |
| VideoPeer.EveryRunMedia | scripts/audit-steam-client-media-process.py:139-175 | on every run the media channel is silent until the start and then carries the case's packets once, in the case's order |
| VideoPeer.PacketsSay | scripts/audit-steam-client-media-process.py:149-175 | the two plain packets are the body in two pieces; a FEC packet is the one given, readdressed and stamped |
| VideoPeer.AcknowledgedByOctets | scripts/audit-steam-client-media-process.py:120-126 | the acknowledgement by its octets |
| VideoPeer.CallServes | scripts/audit-steam-client-media-process.py:118-185 | a call that completes has answered start, stop and acknowledgement |
| VideoPeer.BadMacRepeats | scripts/audit-steam-client-negotiation-process.py:131-155 | a session of four messages in order that sends id 4 twice |
| GapPeer.Peer.Recover | scripts/audit-steam-client-gap-process.py:78-85 | the key frame once, and with the burst subclass the frame after it |
| GapPeer.Peer.OnIdle | scripts/audit-steam-client-gap-process.py:120-148 | the three barriers with their assertions |
| GapPeer.Peer.Receive | scripts/audit-steam-client-gap-process.py:87-118 | barrier first, then negotiation, feedback and start |
| GapPeer.Peer.Serve | scripts/audit-steam-client-udp-process.py:162-174 | the loop over what arrives, up to the first exception, is the run the properties are about |
| GapPeer.EveryRunFine | scripts/audit-steam-client-gap-process.py:50-163 | on every run the control channel is sound and the media packets sent are the prefix of one eight-packet plan that the flags stand for |
| GapPeer.PlanIds | scripts/audit-steam-client-gap-process.py:129-138 | the plan's ids are 0 to 8 in order without 3 |
| GapPeer.PlanFrames | scripts/audit-steam-client-gap-process.py:83-85 | first and key frame are whole when put together, the lost one lacks its tail |
| GapPeer.PlanSays | scripts/audit-steam-client-gap-process.py:116-138 | the plan's frames as read: ids, stamps, sequence numbers, key flags and parts of the clip |
| GapPeer.PlanHeaders | scripts/audit-steam-client-gap-process.py:58-85 | kinds, fragment counts and stamps of the plan's packets |
| GapPeer.NeverTwice | scripts/audit-steam-client-gap-process.py:78-148 | no media packet is sent twice, and packet 3 never |
| GapPeer.IdleServes | scripts/audit-steam-client-gap-process.py:120-148 | a barrier that completes has sent the fault, the frame after the key frame, or the stop |
| GapPeer.CallServes | scripts/audit-steam-client-gap-process.py:87-118 | a call that completes has answered the start, and the first expected feedback with the key frame unless the case is reliable |
| AudioPeer.Peer.Receive | scripts/audit-steam-client-audio-process.py:113-152 | start with the first frame, and the answer to the feedback that reports the gap |
| AudioPeer.Peer.OnIdle | scripts/audit-steam-client-audio-process.py:154-180 | continuation, seed and stop barriers |
| AudioPeer.Peer.Serve | scripts/audit-steam-client-udp-process.py:162-174 | the loop over what arrives, up to the first exception, is the run the properties are about |
| AudioPeer.EveryRunFine | scripts/audit-steam-client-audio-process.py:101-180 | on every run the control channel is sound and the media packets are those of the ids the flags stand for, in that order |
| AudioPeer.NeverTwice | scripts/audit-steam-client-audio-process.py:113-172 | frames go out in id order and once; only the repair of packet 1 comes after packet 2, with its retry byte set |
| AudioPeer.AllSent | scripts/audit-steam-client-audio-process.py:143-172 | after a profile's last barrier every frame has been sent, but packet 1 of the drop profile |
| AudioPeer.IdsCount | scripts/audit-steam-client-audio-process.py:113-172 | how many packets each flag stands for, by profile |
| AudioPeer.EveryFrameHolds | scripts/audit-steam-client-audio-process.py:71-98 | on every run each media packet holds the frame of its id: frame id, stamp and payload |
| AudioPeer.ReportsByOctets | scripts/audit-steam-client-audio-process.py:131-139 | the report of the packet left out, octet by octet |
| AudioPeer.IdleServes | scripts/audit-steam-client-audio-process.py:154-180 | a barrier that completes has done what its stage asks for |
| AudioPeer.CallServes | scripts/audit-steam-client-audio-process.py:113-152 | a call that completes has answered the start and the report |
| Pacing.DueKeeps | scripts/audit-steam-client-load-process.py:89-94 | a frame sent when due is not early |
| Pacing.UndueStops | scripts/audit-steam-client-load-process.py:89-94 | when the loop stops on the clock, the count is the one the clock calls for |
| LoadPeer.Peer.SplitBody | scripts/audit-steam-client-load-process.py:112 | the chunks of 1200 bytes |
| LoadPeer.ChunksJoin | scripts/audit-steam-client-load-process.py:112 | the chunks of any body concatenate to it |
| LoadPeer.ClipFits | scripts/audit-steam-client-load-process.py:28-36 | with access units of the clip's sizes a frame takes one or two packets, so ids suffice for 32768 frames |
| LoadPeer.Peer.OnIdle | scripts/audit-steam-client-load-process.py:80-142 | start of the clock, the production loop, stop |
| LoadPeer.Peer.Receive | scripts/audit-steam-client-load-process.py:63-78 | barrier, negotiation and start |
| LoadPeer.Peer.Serve | scripts/audit-steam-client-udp-process.py:162-174 | the loop over what arrives, up to the first exception, is the run the properties are about |
| LoadPeer.ProduceFine | scripts/audit-steam-client-load-process.py:88-132 | the loop leaves whole frames sent and their number equal to min(frames, floor(t * rate) + 1) for the time t last read |
| LoadPeer.EveryRunFine | scripts/audit-steam-client-load-process.py:53-142 | so does every run, with any nondecreasing clock, any datagrams and barriers, and the control channel is sound |
| LoadPeer.FramesReassemble | scripts/audit-steam-client-load-process.py:97-131 | a receiver that trusts the heads' fragment counts puts together exactly the bodies, with their time stamps |
| LoadPeer.EveryRunReceived | scripts/audit-steam-client-load-process.py:80-132 | on every run packet ids count up from zero across frames, payloads have 1 to 1200 bytes, and the media channel reassembles to the bodies of the frames sent |
| LoadPeer.EveryFrameReceived | scripts/audit-steam-client-load-process.py:93-111 | frame i as received holds access unit i modulo 6, under id 100 + i, stamp 1000000 + 1092 i, sequence i and key flags for every sixth |
| LoadPeer.IdleServes | scripts/audit-steam-client-load-process.py:80-142 | the clock is read when production starts, at the start barrier and no other, and the stop is sent |
| LoadPeer.CallServes | scripts/audit-steam-client-load-process.py:63-78 | a call that completes has answered the start |
| PressurePeer.Peer.OnIdle | scripts/audit-steam-client-pressure-process.py:100-135 | the production loop over prepared groups, with the hole withheld and a second hole raising |
| PressurePeer.Peer.Receive | scripts/audit-steam-client-pressure-process.py:81-98 | feedback recorded and the one repair |
| PressurePeer.Peer.Serve | scripts/audit-steam-client-udp-process.py:162-174 | the loop over what arrives, up to the first exception, is the run the properties are about |
| PressurePeer.RequestedIsMissing | scripts/media-pressure-stimuli.py:95-105 | the test on a report is that it misses the packet: right kind, channel and length, and the id between watermark and base or its bit clear |
| PressurePeer.ProducedIsKeptAndHeld | scripts/audit-steam-client-pressure-process.py:115-124 | with at most one packet held back, what was produced is what was sent on, in order, and that packet in its place |
| PressurePeer.EveryRunFine | scripts/audit-steam-client-pressure-process.py:58-135 | on every run the control channel is sound, packets are conserved, production is punctual until something fails, and a repair made follows a report that misses the packet |
| PressurePeer.Conservation | scripts/audit-steam-client-pressure-process.py:81-125 | the media channel carries the packets produced, in order, without the one withheld, which appears at most once, after its place, with its retry byte set, only if a report misses it |
| PressurePeer.RequestAnswered | scripts/audit-steam-client-pressure-process.py:84-98 | in the profile that repairs, a report that misses the packet withheld is answered by the repair |
| PressurePeer.IdleServes | scripts/audit-steam-client-pressure-process.py:100-135 | the clock is read when production starts, and the stop is sent |
| GroupAssembly.Assemble | scripts/analyze-video-perf.py:10-19 | the loop over records with FIFO eviction emits the rows of the specification |
| GroupAssembly.AlwaysTidy | scripts/analyze-video-perf.py:13-16 | at most 16 groups are pending, in the order in which they were opened |
| GroupAssembly.AtMostSixteen | scripts/analyze-video-perf.py:13-16 | never more than 16 |
| GroupAssembly.AlwaysHolds | scripts/analyze-video-perf.py:16-19 | a pending group holds what arrived for its id since it was opened, incomplete |
| GroupAssembly.EmittedSnapshot | scripts/analyze-video-perf.py:17-19 | an emitted row merges one surviving record of each of the five kinds of one id, and every kind is among them |
| GroupAssembly.GatherKeepsSurvivors | scripts/analyze-video-perf.py:17 | the last record of a kind replaces earlier ones |
| GroupAssembly.GatherOrder | scripts/analyze-video-perf.py:17 | parts stand in the order in which their kinds first arrived |
| GroupAssembly.MergeTakesLast | scripts/analyze-video-perf.py:19 | a row takes each field from the last part that has it |
| GroupAssembly.MergeHas | scripts/analyze-video-perf.py:19 | and has no other fields |
| GroupAssembly.EvictedLate | scripts/analyze-video-perf.py:13-16 | a group goes away incomplete only after at least 16 later openings |
| GroupAssembly.CompleteSnapshotEmitted | scripts/analyze-video-perf.py:10-19 | a snapshot whose five lines straddle fewer openings than that is always emitted |
| PerfSummary.Difference | scripts/analyze-video-perf.py:22-46 | the loop with resets and warm-up computes totals, duration, modes and used rows of the measured pairs |
| PerfSummary.Summarize | scripts/analyze-video-perf.py:9-46 | assembly, the required fields, then differencing |
| PerfSummary.SegmentsOrdered | scripts/analyze-video-perf.py:30-41 | the segments of measured pairs are in order and apart |
| PerfSummary.SegmentsCover | scripts/analyze-video-perf.py:30-41 | and cover exactly the measured pairs, so they are the maximal ones |
| PerfSummary.TotalIsSegmentSum | scripts/analyze-video-perf.py:42-44 | every total, and the duration over ids, is the sum over maximal segments of last minus first |
| PerfSummary.MeasuredPair | scripts/analyze-video-perf.py:30-41 | a measured pair starts at least the warm-up after the last row that renewed it (a new key, an id that does not advance, or a counter reset past the warm-up); since then the key is the same and ids increase, and no counter goes back in the pair |
| PerfSummary.MeasuredIff | scripts/analyze-video-perf.py:28-41 | a pair is measured exactly when session, epoch, backend, decoder and size agree, the id advances, the warm-up since the last renewal is over and no counter goes back; it renews the warm-up exactly when it breaks the stream or a counter goes back after it |
| PerfSummary.UsedArePairs | scripts/analyze-video-perf.py:46 | the rows used are the two of each measured pair, pair after pair |
| PerfSummary.CompleteConcat | scripts/analyze-video-perf.py:20-21 | rows with all required fields stay, in order |
| PerfSummary.NeverDecreases | scripts/analyze-video-perf.py:42-44 | totals and duration never decrease |
| PerfSummary.SplitAtKeyChange | scripts/analyze-video-perf.py:29-33 | splitting the rows where the key changes makes totals and duration additive |
| QueueSummary.Accumulate | scripts/analyze-video-pacing.py:23-45 | one kind's loop computes elapsed time and deltas of the measured pairs, and the last row |
| QueueSummary.Summarize | scripts/analyze-video-pacing.py:14-47 | grouping by kind, then accumulation |
| QueueSummary.SumIsGains | scripts/analyze-video-pacing.py:24-45 | elapsed time is the sum over the maximal measured segments of last id minus first, and each counter that over the maximal measured stretches in which both rows have it |
| QueueSummary.SegmentsCover | scripts/analyze-video-pacing.py:24-45 | the segments cover exactly the counted pairs |
| QueueSummary.SegmentsOrdered | scripts/analyze-video-pacing.py:24-45 | and are in order and apart |
| QueueSummary.ReportSums | scripts/analyze-video-pacing.py:43-46 | a report is made of those sums, has a delta for exactly the counters some measured pair shares, and the last row |
| QueueSummary.InterleavingDoesNotMatter | scripts/analyze-video-pacing.py:15-22 | any interleaving that keeps each kind's own order gives the same summary |
| QueueSummary.MeasuredPair | scripts/analyze-video-pacing.py:25-42 | measured pairs start at least the warm-up after the last row that renewed it (the first, or one with a counter reset past the warm-up), advance, go back in no counter, and for kind 7 have two zero return codes |
| QueueSummary.MeasuredIff | scripts/analyze-video-pacing.py:25-42 | which pairs are measured and which renew the warm-up, both exactly |
| QueueSummary.SamplesConcat | scripts/analyze-video-pacing.py:16-22 | a kind's rows are its lines with an id, in order |
| QueueSummary.SummaryKinds | scripts/analyze-video-pacing.py:22-24 | there is a report for exactly the kinds that have a line with an id |
| QueueSummary.NeverDecreases | scripts/analyze-video-pacing.py:43-45 | elapsed time, every total and the set of counters only grow |
| GapPolicy.Decoder.Feed | scripts/audit-steam-audio-gap-policy.py:193-208 | one frame's decodes, the recovered ids first, and the new expected id |
| GapPolicy.TraceIsConsecutive | scripts/audio-gap-stimuli.py:20-31 | for any arrivals the codec decodes each id from the first on, once and in order |
| GapPolicy.TotalIsReach | scripts/audio-gap-stimuli.py:20-31 | the number of decodes is one more than the unrolled distance from the first frame to the furthest reached |
| GapPolicy.TotalFromEnds | scripts/audit-steam-client-audio-process.py:51-58 | up to whole turns of 65536 the number of decodes is that of the closed form taken at the last accepted frame, whichever frames between were lost |
| GapPolicy.ClosedFormIff | scripts/audit-steam-client-audio-process.py:51-58 | the closed form is the exact number of decodes if and only if the plan ends ahead and reaches less than a turn |
| GapPolicy.ClosedFormFails | scripts/audit-steam-client-audio-process.py:58 | a list past a whole turn and a list ending in a late frame for which it is not |
| GapPolicy.DroppedIsLate | scripts/audio-gap-stimuli.py:20-31 | a frame is dropped if and only if it is 1 to 32767 behind, and then repeats a decoded id when the stream is that long |
| GapPolicy.TableAgrees | scripts/audio-gap-stimuli.py:20-31 | the policy gives every row of the table |
| AudioStop.Stop.Run | scripts/audit-steam-audio-stop.py:106-131 | the fixture's schedule pauses and ends as asserted for every pause index below the count |
| AudioStop.RunFixture | scripts/audit-steam-audio-stop.py:106-131 | with the fixture's frame 32769 after frame 0, every pause below 32769 ends with 32769 decodes and the four events in order |
| AudioStop.StepKeepsInvariant | scripts/audit-steam-audio-stop.py:42-76 | one step of either thread keeps codec, join, purge and stop in order |
| AudioStop.EveryInterleavingIsSafe | scripts/audit-steam-audio-stop.py:42-76 | every interleaving does: the codec lives until the consumer has finished, and join returns only then |
| AudioStop.Terminates | scripts/audit-steam-audio-stop.py:106-131 | every interleaving takes at most total + 7 effective steps, and that many end it |
| AudioStop.Progress | scripts/audit-steam-audio-stop.py:106-131 | no state but the end state is stuck |
| AudioStop.FinalEvents | scripts/audit-steam-audio-stop.py:42-76 | at the end all decodes have been made and the events are signal, join, purge, codec stop in that order |
| Worklist.Helpers | scripts/audit-steam-account-metadata.py:188-199 | terminates on every finite graph with exactly the reachable scripts and their own hashes |
| Worklist.OrderDoesNotMatter | scripts/audit-steam-authorization-admission.py:57-73 | the result does not depend on the order or repetition of dependencies |
| Worklist.Closed | scripts/audit-steam-account-metadata.py:188-199 | every set closed under naming that holds the root holds all that is reachable |
| Worklist.DependencyIff | scripts/audit-steam-account-metadata.py:196-198 | a dependency is a script of the directory with the prefix and the suffix |

## Left out

- StringHeap.FrozenForever: one level, as the copy is shallow; what a field of the snapshot merely points at is outside the claim.
- StringHeap.Shell.CString: decoding as UTF-8 and encoding again is the identity here; a C string that is not UTF-8 raises in the original.
- StringHeap.RunRefines: bytes a caller passes from outside every string are taken as given in the run on the map; 64-bit wrap-around of stored words does not arise, since lengths and addresses lie in the memory modelled; unmapped holes of the emulator are not modelled, all memory below the array's length is readable.
- StringHeap.Shell.Alloc: huge sizes fail in the original for lack of memory in ways not modelled.
- GapPeer.Peer.Receive: whether a datagram, normalised, equals the expected feedback is a predicate of the case, taken on the datagram as received.
- VideoPeer.Peer.Call: FEC packets are given with their header fields decoded; `PressurePeer` takes its groups the same way.
- LoadPeer.ProduceFine: times and the quotient of frame number and rate are exact, floating-point rounding is not modelled; the case is assumed to have at most 65436 frames and 65536 packets, beyond which packing a field raises.
- AudioPeer.EveryRunFine: payloads are a function of the packet, and the profiles that send their frames in order are one profile.
- Socket addresses, the recorded case logs that are only copied out (indices, times, hexadecimal forms) and the files the peers write back.
- Unicorn emulation, instruction patching, ELF and protobuf descriptors, GDB drivers: the behaviour is that of binaries that are not in the repository.
- Policies known only as recorded traces (authorization cache, attempt limits, jitter buffer, config fetch, decoder reset).
- Sockets, threads, processes, temporary files, compression, JSON output and argument parsing.
- AES, HMAC, SHA-256 and X25519: a bijection on blocks, an arbitrary function, and a digest function stand for them.
- Regular expressions and text decoding of the log tools, which start from parsed records here, and the derived rates and ratios of the reports.
- Scenario lists, mutation tables and the `verify` functions: fixed cases.
