# NTP client and server, modelled in Dafny

This project models a small NTPv4 client/server pair.

- **Packet codec.** Both programs carry the same `NTPPacket` class. It packs 48 bytes with the struct format `!B B b b 3I 4d`: one LI/VN/Mode byte, stratum, poll and precision, three unsigned 32-bit words, then four 8-byte timestamps. It also unpacks such a frame back into fields.
- **Client burst loop.** The client sends requests in bursts. Each request carries, in its origin field, the transmit timestamp (T3) of the latest reply the burst accepted, and in its receive field the client's clock reading when that reply arrived (T4); the first request of a burst carries zeros in both. The client drops replies that its duplicate guard flags. For each accepted reply it stores the clock offset and the round-trip delay of section 8 of RFC 5905, in milliseconds.
- **Plot summary.** After the bursts, the client flattens the samples into a series and marks, in each burst, the first sample with the least delay.
- **Server.** The server decodes a request and stamps it into a mode-4 reply. The origin is set to the request's transmit time, followed by the server's receive and transmit readings. It then encodes the reply.

Modules:

- `Wire` (`wire.dfy`): the struct slots used by the codec, which are unsigned and signed bytes and big-endian 32-bit words. It also models Python's `|` and `<<` on non-negative integers.
- `Packet` (`packet.dfy`): the LI/VN/Mode byte, `Encode`/`Decode` over whole frames, and the `NtpPacket` class. That class has the packet's fields, its constructor, `ConvertToBytes` and `ConvertToObj`. The header layout is that of section 7.3 of RFC 5905. Mode 3 is client and mode 4 is server.
- `NtpTime` (`ntp_time.dfy`): `NTP_DELTA`, `system_to_ntp_time` and `_to_time`.
- `Exchange` (`exchange.dfy`): offset, delay, the stored sample, and `is_duplicate`.
- `Burst` (`burst.dfy`): the burst loop of `main`.
    - `Run` is a specification function: a chain of `Advance` steps.
    - `RunBurst` is the loop itself, over the four lists `org_timestamp`, `rcv_timestamp`, `xmt_timestamp` and `oi_di_list`. It is proved equal to `Run`.
    - `RunSession` runs `burst_counter` bursts.
- `Selection` (`selection.dfy`): the loops of `plot_measurements`.
- `Server` (`server.dfy`): the body of the server's receive loop.

Sockets and clocks are inputs:

- Each client send is a `Send`. It holds the host clock reading used for the request and the number of receives that the one-second deadline admits.
- Arriving replies form one stream of `Receipt`s. Each is a decoded frame paired with the host clock reading taken on arrival.
- The server's two readings are parameters.

On the wire, a timestamp is an opaque 8-byte `Stamp`. The client's arithmetic uses reals (`Frame<real>`).

## Model

| member | source | states |
|---|---|---|
| Wire.FromToBigEndian | ntp_client.py:70-72 | a value below 256^width packed into `width` big-endian bytes reads back as itself (format `I`) |
| Wire.ToFromBigEndian | ntp_client.py:92-94 | reading a byte string and repacking it into the same width gives the same bytes |
| Wire.SignedByte | ntp_client.py:68-69 | a signed byte in -128..127 packs to one octet that unpacks to the same value (format `b`) |
| Wire.FromSignedByte | ntp_client.py:90-91 | an unpacked signed byte lies in -128..127 and is negative exactly when the octet is 128 or more |
| Wire.SignedByteOfUnpacked | ntp_client.py:90-91 | repacking an unpacked signed byte gives the original octet |
| Wire.BitOrDisjoint | ntp_client.py:66 | `x << k \| low` equals `(x << k) + low` whenever `low < 2^k` |
| Packet.DefaultFrame | ntp_client.py:35-60 | a fresh packet has LI 0, version 4, the given mode and the given transmit timestamp |
| Packet.UnpackHeader | ntp_client.py:86-88 | the three header fields split off a byte are in 0..3, 0..7 and 0..7 |
| Packet.PackHeader | ntp_client.py:66 | for fields that fit 2, 3 and 3 bits, the OR of the shifted fields is the sum `64 li + 8 version + mode` |
| Packet.HeaderRoundTrip | ntp_client.py:66-88 | packing in-range LI/VN/Mode gives a byte that unpacks to the same three fields |
| Packet.ByteRoundTrip | ntp_server.py:49-71 | unpacking any byte and packing the three fields again gives that byte |
| Packet.SplitByte | ntp_client.py:86-88 | every byte is `64 li + 8 version + mode` of its own unpacked fields |
| Packet.DefaultRequestHeader | ntp_client.py:35-40 | a default client request has header byte 0x23 |
| Packet.Encode | ntp_client.py:63-77 | packing succeeds exactly when every field fits its slot and the header byte is below 256, and then yields 48 bytes |
| Packet.Decode | ntp_client.py:79-98 | unpacking fails exactly when fewer than 48 bytes arrive, and otherwise yields fields that all fit their slots |
| Packet.EncodeLayout | ntp_client.py:65-76 | where every field lands in the packed frame, byte by byte |
| Packet.DecodeEncode | ntp_client.py:63-98 | a frame whose fields fit their slots packs, and unpacking the bytes returns that frame |
| Packet.EncodeDecode | ntp_server.py:46-81 | any 48 leading bytes unpack, and packing the result gives those 48 bytes back |
| Packet.DecodeIgnoresTrailing | ntp_client.py:80-81 | bytes after the first 48 do not affect unpacking |
| Packet.NtpPacket.constructor | ntp_client.py:35-60 | the new object holds the default frame, and it is in range exactly when the mode is in 0..7 |
| Packet.NtpPacket.ConvertToBytes | ntp_client.py:63-77 | packing yields 48 bytes, and for in-range fields those bytes unpack to the object's fields |
| Packet.NtpPacket.Assign | ntp_client.py:86-98 | after the assignments the object's fields are exactly the given frame |
| Packet.NtpPacket.ConvertToObj | ntp_client.py:79-98 | a short buffer fails with its length and leaves the object unchanged; otherwise the object holds the decoded frame |
| NtpTime.NtpDeltaValue | ntp_client.py:8 | NTP_DELTA is 25567 days, which is 2208988800 seconds |
| NtpTime.SystemToNtpTime | ntp_client.py:15-16 | the conversion adds exactly 2208988800 and is undone by the inverse shift |
| NtpTime.NtpToSystemTimeInverse | ntp_server.py:13-14 | shifting back and forth in the other order is also the identity |
| NtpTime.SystemToNtpTimeMonotonic | ntp_server.py:13-14 | the conversion preserves `<` and `<=` in both directions |
| NtpTime.ToTime | ntp_client.py:11-12 | for `0 <= frac < 2^n` the result lies in `[integ, integ + 1)` and its floor is `integ` |
| NtpTime.ToTimeFraction | ntp_server.py:9-10 | the part above `integ` is `frac` units of `2^-n` seconds |
| Exchange.Measure | ntp_client.py:169-172 | the stored pair determines the two one-way differences: offset plus half the delay is `1000 (T2 - T1)`, minus half the delay is `1000 (T3 - T4)` |
| Exchange.Offset | ntp_client.py:170 | offset plus half the delay is the outbound difference T2 - T1, and offset minus half the delay is the return difference T3 - T4 |
| Exchange.Delay | ntp_client.py:169 | the delay is the outbound difference less the return difference, so a server clock offset added to T2 and T3 cancels |
| Exchange.SymmetricPathRecovered | ntp_client.py:169-170 | with equal leg delays `d` and a server clock `theta` ahead, offset is `theta` and delay is `2 d`, whatever the processing time |
| Exchange.MeasureExample | ntp_client.py:169-172 | T1..T4 = 100, 105, 105, 102 gives the sample (4000, 2000) |
| Exchange.IsDuplicate | ntp_client.py:23-29 | the guard holds exactly when the reply's origin, receive and transmit times each occur in their own list |
| Exchange.NothingDuplicatesAnEmptyHistory | ntp_client.py:23-29 | with no transmit time recorded, no reply is flagged |
| Exchange.DuplicateNeedNotMatchOneExchange | ntp_client.py:23-29 | a reply can be flagged although no single earlier exchange holds all three of its times |
| Burst.Accept | ntp_client.py:169-188 | recording a reply keeps the list shape, only appends, adds one sample, and that sample is the offset/delay measure of the reply and its arrival time |
| Burst.RequestFields | ntp_client.py:152-155 | a request is a mode-3, version-4 packet whose origin and receive fields are the last entries of the chained lists, and whose transmit timestamp is the clock reading of its send |
| Burst.FirstRequestUnchained | ntp_client.py:146-154 | the first request of a burst carries 0 as origin and receive timestamp |
| Burst.RequestAfterAccept | ntp_client.py:153-186 | after a reply is recorded, the next request's origin is that reply's transmit timestamp and its receive time is the reply's arrival reading |
| Burst.Await | ntp_client.py:159-165 | the wait ends at the first reply the guard does not flag, with every skipped reply flagged; or after the deadline's receives, all flagged; or when the stream runs out first |
| Burst.Advance | ntp_client.py:151-188 | one pass either stops (full burst, no send left, or blocked receive) or appends this send's request, keeps the list shape and adds at most one sample |
| Burst.Run | ntp_client.py:151-188 | the loop reads the stream forward only and never past its end |
| Burst.MessagePairs | ntp_client.py:149-188 | message_pair at each send starts at the current sample count, stays below burst_size, and between two sends stays or moves up by one |
| Burst.RunChains | ntp_client.py:146-188 | the lists keep their shape and only grow, and a burst ends full exactly when it holds burst_size samples, never more |
| Burst.RunSends | ntp_client.py:151-167 | every pass sends exactly one request, so the requests only grow, by at most the sends available |
| Burst.RunUsesEverySend | ntp_client.py:151-167 | a burst that runs out of sends has sent one request for each of them |
| Burst.RunSamplesPerSend | ntp_client.py:151-188 | the burst gains no more samples than it sends requests |
| Burst.RunRequestsChained | ntp_client.py:152-188 | request `i` of a burst is mode 3, carries the clock reading of send `i`, and takes its origin and receive values from the list entry at its message_pair, the entry that `RequestAfterAccept` fills with the latest accepted reply's T3 and T4 |
| Burst.ReceiveReply | ntp_client.py:159-165 | the receive loop returns exactly `Await` |
| Burst.RunBurst | ntp_client.py:146-188 | the loop over the four lists returns exactly `Run` from the seeded lists |
| Burst.RunSession | ntp_client.py:144-189 | burst `k` stores exactly the samples of `Run` over its sends, started where burst `k - 1` stopped reading; every stored burst filled up with burst_size samples; the session ends early with the status of the first burst that did not fill, or `OutOfSends` when no sends remain for another burst |
| Burst.ReplayedReplyIsAcceptedAgain | ntp_client.py:23-29 | a second copy of an accepted reply passes the guard and is stored as a second sample |
| Selection.PlotSeries | ntp_client.py:110-115 | the y series is every burst's samples in order, and the x labels are the matching burst and message numbers |
| Selection.FirstMinDelay | ntp_client.py:120-126 | no index for an empty burst; otherwise the first index of least delay |
| Selection.FirstMinDelayUnique | ntp_client.py:120-126 | a burst has at most one first index of least delay |
| Selection.MarkerPositions | ntp_client.py:118-127 | marker `k` is `8 k` plus burst `k`'s first least-delay index; an empty burst stops the computation at the first such key |
| Selection.FlattenUniform | ntp_client.py:110-115 | with eight samples per burst, sample `i` of burst `k` and its label sit at position `8 k + i` |
| Selection.MarkersPointAtLeastDelay | ntp_client.py:127-131 | with eight samples per burst, every marker points at a least-delay sample of its own burst, labelled with that burst |
| Server.StampReply | ntp_server.py:99-104 | the reply differs from the request only in mode and the three exchange timestamps |
| Server.StampReplyExchange | ntp_server.py:99-104 | the reply is mode 4, echoes the request's transmit time as origin, carries the two readings, and keeps the other nine fields |
| Server.ReplyStampsOrdered | ntp_server.py:96-104 | if the clock does not run backwards, the receive time is not after the transmit time, and T3 - T2 is the elapsed host time |
| Server.ReplyHeader | ntp_server.py:99-101 | the reply's header byte is the request's leap and version bits with mode 4 |
| Server.Reply | ntp_server.py:99-110 | a short datagram fails with its length; otherwise the reply keeps bytes 1-23, moves the request's transmit bytes into the origin slot, carries the two readings, and has the header's mode bits set to 4 |
| Server.Respond | ntp_server.py:99-110 | the object-based loop body returns exactly `Reply` |

## Left out

- Sockets, `sendto`, `recvfrom(1024)`, bind, and the unbounded `while True` server loop are I/O. Replies and their arrival readings are an input stream; the server handles one datagram per call.
- Clock reading (`time.time()`) is an input. The one-second deadline is modelled by the count of receives it admits (`Send.receives`). The model requires that count to be at least one. With zero, the source would reuse a stale `obj` or fail with an unbound name.
- `recvfrom` blocks with no timeout. When the modelled stream runs out, the burst ends with status `Hung`. When the modelled sends run out, it ends with `OutOfSends`. The source would keep going in both cases.
- `time.sleep` between bursts, all printing, and the matplotlib call are left out. So are `print_time` and the unused `pickle` import.
- `client_config` is not part of this model. Only its `burst_size` and `burst_counter` appear, as the parameters `burstSize` and `burstCounter`. The host and port go with the sockets, and `burst_time_interval` goes with `time.sleep`; none of the three is modelled.
- Floating point is left out. Timestamps are IEEE-754 doubles in the source. Here they are opaque 8-byte `Stamp`s on the wire and exact reals in the client's arithmetic. So the model does not capture rounding in `system_to_ntp_time`, offset or delay. It also does not connect a stamp's bytes to its real value.
- `received_message` decodes every datagram before the guard sees it. The model's stream already holds decoded replies, so the short-datagram error on the client side (the same `Decode` failure) is not part of the burst model.
- The dictionary `burst_offset_delay_list` is a sequence indexed by `counter`. Its keys are inserted in order 0, 1, ….
- Selection.MarkerPositions: the literal `8` in `key * 8` is kept as written. The marker therefore lands on the intended sample only when every burst has eight samples, which `MarkersPointAtLeastDelay` assumes.
- RFC 5905 timestamps are 32.32 fixed point on the wire. This code packs them as doubles (`4d`), and the model follows the code.
- `is_duplicate` tests each field against its own list, not against a recorded triple of one exchange, and the model follows the code (see `DuplicateNeedNotMatchOneExchange`).
