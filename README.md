# scrcpy desktop: a verified model of its core

This project models, in Dafny, the logic at the heart of a browser front end
for scrcpy: a Node.js server (a monolithic `server.js` and a modular version
under `src-server/`) that starts the scrcpy device server over ADB, splits
the device's sockets into video, audio and control streams and relays them
to browser clients over a WebSocket; two browser clients (the single-file
`src/main.js` and the modular `src-client/`); the H.264-to-MP4 converter
bundled into `public/main.js`; and a small Python helper (`server.py`) that
launches the scrcpy desktop program itself.

What is modelled, module by module:

- `DeviceHelper` — the Python helper: classifying `adb devices` ids into USB
  and network devices, the device's Wi-Fi address, the new overlay display,
  the chosen serial and the `scrcpy` command line with its reset rule.
- `BitReader`, `BitField`, `Sps`, `Aac` — the session's Exp-Golomb bit
  reader (section 9.1 of ITU-T H.264), the SPS parser and its frame size
  (sections 7.3.2.1.1 and 7.4.2.1.1), the AudioSpecificConfig parser
  (section 1.6.2.1 of ISO/IEC 14496-3) and the ADTS header writer
  (section 6.2 of ISO/IEC 13818-7).
- `DynBuffers`, `Demux`, `Lifecycle` — the growable per-socket buffer and the
  socket state machine that reads the device name, the codec headers and
  the 12-byte-header packets, assigns the control socket by deduction,
  announces "Streaming started" once, and ends the session when its sockets
  close; both copies (session module and monolithic server) are covered.
- `SessionOptions`, `StartRequests`, `WsHandlers`, `AdbService`,
  `QrPairing`, `Launcher` — the server's `start` checks and options, the
  device-server arguments, session id and port; the ADB command handlers
  (displays, overlay, window size and density, rotation, clean-up, volume);
  the ADB output parsers; the QR pairing service (DNS-SD matching after
  sections 4 and 5 of RFC 6763, the QR payload, `/connect-ip`, and the
  session record driven by initiate, cancel and the pairing workflow); and
  the launcher list with its label derivation and sort.
- `ClientState`, `Logger`, `ClientMessages`, `AdbClient`, `WsClient`,
  `ControlMessages`, `Input`, `VideoPlayback`, `Sidebar`, `AppDrawer` — the
  modular client: its shared state and stream reset, the bounded log, the
  message senders, the pending ADB-command table, the WebSocket handlers,
  the touch, scroll and back control messages, the mouse, touch and wheel
  handlers with their button mask, the I-frame test and source-buffer
  clean-up, the sidebar's start, stop, device-selection and enablement
  rules, and the app drawer's pages.
- `LegacyClient` — the single-file client's mouse handlers, log, I-frame
  test, orientation flip and start guard.
- `H264BitStream`, `NalUnit`, `NaluStreamBuffer`, `TypedArray`, `Mp4` — the
  bundled converter's bit stream, the NAL unit header and its
  length-prefixed form, the Annex B start-code splitter, and the `box` and
  `trun` writers of sections 4.2 and 8.8.8 of ISO/IEC 14496-12.
- `Wrappers`, `Bytes`, `Text` — `Option`/`Result`, big-endian and
  two's-complement byte codecs, and the string operations JavaScript and
  Python provide (`split`, `trim`, `parseInt`, `indexOf`).

Objects that the source updates in place are classes whose methods are
proved against functions of the old state (`ensures g.Snap() ==
F(old(g.Snap()))`); the properties are then lemmas about those functions.
Process output, socket bytes, clocks, random bytes and the answers of
asynchronous calls are parameters.

A few behaviours of the code are worth naming. Every id that is not
`a.b.c.d:port` goes to the USB list (server.py:22-25). The new overlay
display is taken from a set difference (server.py:70-76); the model picks the
first new id in listing order, and its contract promises only that the id is
new. A QR pairing start that arrives while a session is processing gets HTTP
400 (src-server/qrPairingService.js:218-221). The ADTS byte-2 truncation of
profiles 4 and 28 is kept as written.

## Model

| member | source | states |
|---|---|---|
| DeviceHelper.ClassifyDevices | server.py:17-26 | the append loop yields exactly the non-network ids as the USB list and the network ids as the network list, each in input order |
| DeviceHelper.ClassifyPartition | server.py:17-26 | every id lands in exactly one list (the two multisets add up to the input); an id is in the network list iff it matches `^\d+\.\d+\.\d+\.\d+:\d+$`, otherwise it is in the USB list and never dropped |
| DeviceHelper.Kept | server.py:21-25 | a filtered list is no longer than the input and holds only input ids of the chosen class |
| DeviceHelper.WifiTarget | server.py:120 | the Wi-Fi target is the address followed by exactly `:5555` |
| DeviceHelper.WifiTargetIsNetwork | server.py:120 | the target built from a dotted-quad address is itself a network id, so it classifies as a network device |
| DeviceHelper.DeviceIds | server.py:90 | at most one id per output line, and no id contains a tab |
| DeviceHelper.DeviceIdsListed | server.py:90 | an id is listed iff some line containing `\tdevice` has it as the text before its first tab |
| DeviceHelper.InetAt | server.py:33 | a match at a position is a dotted quad found there as `inet <a.b.c.d>/` |
| DeviceHelper.InetAtExact | server.py:33 | the address found at a position is exactly the dotted quad that occurs there as `inet <quad>/`: whenever one occurs it is returned, and nothing else is |
| DeviceHelper.InetAtMatches | server.py:33 | an address is found at a position iff the pattern `inet (\d+\.\d+\.\d+\.\d+)/` matches there |
| DeviceHelper.FirstInet | server.py:33-35 | a found address is the one at the first matching position at or after the start, with no match before it; nothing is found iff no position from the start on matches |
| DeviceHelper.DeviceIp | server.py:28-36 | an address is returned only when the exit code is 0 and the output contains `inet `; then it is None iff no position matches, and otherwise the address of the first matching position |
| DeviceHelper.DeviceIpFirstMatch | server.py:28-36 | in terms of the pattern alone: None iff the run failed or `inet <quad>/` occurs nowhere; otherwise the address occurs as `inet <addr>/` at a position with no match before it |
| DeviceHelper.DisplayIds | server.py:45-52 | a failed listing contributes no ids; at most one id per line |
| DeviceHelper.CollectDisplayIds | server.py:48-52 | the loop collects exactly the per-line `--display-id=` matches of a successful listing |
| DeviceHelper.GetDynamicDisplayId | server.py:38-78 | the probe runs reset, listing, fixed overlay and listing in that order, and reports the first id of the second listing that the first did not show |
| DeviceHelper.NewDisplayId | server.py:70-78 | a returned id is in the after-list and not in the before-list; None iff every after-id was already present (which element is returned is left unspecified) |
| DeviceHelper.OverlayIsFixed | server.py:38-78 | the probe ignores the size asked for: on the overlay path the `<resolution>/<dpi>` overlay is overwritten, and the last overlay written before scrcpy starts is always the probe's `1920x1080/160`, followed only by the second listing |
| DeviceHelper.DisplayArg | server.py:180-194 | the Android 11 path adds one argument iff a resolution is given; the overlay path adds one iff both resolution and dpi are given |
| DeviceHelper.Flags | server.py:196-201 | the flags are exactly the non-empty ones among bitrate, max fps and rotation lock, in that order: each appears iff it is non-empty, bitrate first and rotation lock last when set, and none when all are empty |
| DeviceHelper.AppendFlags | server.py:196-201 | the command grows by exactly the set flags, in the order bitrate, max fps, rotation lock |
| DeviceHelper.RunWithReset | server.py:153-159 | the thread attempts the scrcpy spawn first and once; a spawn that raises ends the thread there; otherwise it resets the overlay to `none` iff a reset is owed, and every adb call comes after waiting for scrcpy to exit |
| DeviceHelper.WifiAddress | server.py:108-119 | a given address is used as is; otherwise an address exists only when a USB device is present and it is that device's `get_device_ip` result |
| DeviceHelper.ConnectWifi | server.py:104-129 | success iff an address is known, TCP/IP was enabled when it was auto-detected, connect printed "connected to" or "already connected", and `adb devices` then lists `<ip>:5555`, which becomes the serial |
| DeviceHelper.Helper.constructor | server.py:10 | no serial is known at start |
| DeviceHelper.Helper.DetectDevice | server.py:81-137 | the serial changes only on success; an adb failure gives the `ADB error:` reply; USB mode fails iff there is no USB id and otherwise picks the first; Wi-Fi mode disconnects every network id first and succeeds under the `ConnectWifi` conditions; any other mode is refused |
| DeviceHelper.Helper.StartScrcpy | server.py:162-210 | without a serial, or with an empty one, error 500 and nothing run; the command is `scrcpy -s <serial>` + display argument (with the id the two listings give) + set flags + options; a reset is owed iff on the overlay path, so the thread restores the overlay to `none` exactly then when scrcpy spawns, and never when the spawn raises; the overlay path runs its adb calls even when no new display id is found, and is then refused with 500 |
| TypedArray.Zeros | public/main.js:235 | a fresh `Uint8Array(n)` is `n` bytes, all zero |
| TypedArray.Overwrite | public/main.js:238 | after `set(source, offset)` the bytes from `offset` on are `source` and every byte before and after them is unchanged |
| TypedArray.Set | public/main.js:238 | the element-wise copy leaves the array equal to `Overwrite` of its old contents |
| TypedArray.OverwriteAdjacent | public/main.js:919-923 | two `set` calls at adjacent offsets leave what one `set` of both sequences leaves |
| NalUnit.HeaderFields | public/main.js:170-174 | `nri` is bits 1-2 and `ntype` bits 3-7 of the first byte (the `nal_ref_idc` and `nal_unit_type` fields), and with the forbidden bit they make up the byte; `nri < 4`, `ntype < 32` |
| NalUnit.TypeNames | public/main.js:210-224 | `NALU.type` gives a name other than "UNKNOWN" exactly for types 1, 5, 6, 7 and 8, no two of them share a name, and 7 and 8 are "SPS" and "PPS" |
| NalUnit.KeyframeRules | public/main.js:228-230 | a unit is a key frame exactly when its type name is "IDR", i.e. when its five type bits are 00101 |
| NalUnit.FramedRoundTrip | public/main.js:231-240 | the framed unit is `getSize()` bytes long; its first four bytes read back big-endian as the unit's length and the rest is the unit |
| NalUnit.FramedPrefix | public/main.js:234-240 | for any length the prefix holds the length modulo 2^32, as `setUint32` keeps it |
| NalUnit.GetData | public/main.js:234-240 | `getData` returns a fresh array equal to the length-prefixed unit |
| Mp4.Word32 | public/main.js:913-916 | the four size bytes read back big-endian as the value modulo 2^32, and exactly below 2^32 |
| Mp4.BoxRoundTrip | public/main.js:902-925 | a box reads back as one: its size field equals its length, the type follows it and then the payloads, one after the other |
| Mp4.BoxPayloadAt | public/main.js:919-923 | payload `k` sits in the box at 8 plus the lengths of the payloads before it |
| Mp4.ConcatAt | public/main.js:919-923 | payload `k` sits in the concatenation right after the payloads before it |
| Mp4.BoxSize | public/main.js:907-911 | the first loop computes 8 plus the sum of the payload lengths |
| Mp4.SetPayloads | public/main.js:918-923 | the second loop leaves the eight header bytes followed by every payload in order |
| Mp4.SetHeader | public/main.js:913-917 | the first eight bytes are the size as a big-endian word and then the type |
| Mp4.Box | public/main.js:902-925 | `MP4.box` returns a fresh array equal to the box of its type and payloads |
| Mp4.TrunPayloadLength | public/main.js:1389-1391 | the run payload is `arraylen = 12 + additionalLen + 4 * len` bytes, its header 12 |
| Mp4.SizeWordsSnoc | public/main.js:1415-1424 | the words of the first `i + 1` sizes are the words of the first `i` and then size `i`'s word |
| Mp4.TrunArray | public/main.js:1387-1424 | the array `trun` fills is the header, the four zero bytes of a key frame's first sample flags, and every sample size as a word |
| Mp4.SetTrunHead | public/main.js:1392-1414 | the header writes leave the version, the flags, the count, the data offset `offset + 8 + arraylen` and, for a key frame, four zero bytes |
| Mp4.SetSizes | public/main.js:1415-1424 | the loop writes size `i` at `12 + additionalLen + 4 * i` and keeps what was before |
| Mp4.Trun | public/main.js:1386-1426 | `MP4.trun` returns a fresh box of type "trun" holding exactly that payload |
| Mp4.Low32sSmall | public/main.js:1419-1422 | sizes below 2^32 survive the `>>>` byte split unchanged |
| Mp4.WordsOfSizes | public/main.js:1415-1424 | the size words read back big-endian are the sizes modulo 2^32 |
| Mp4.TrunHeaderFields | public/main.js:1393-1406 | the header is version 0, flags `0x000201` or `0x000205`, the sample count modulo 2^32 and the data offset modulo 2^32 |
| Mp4.TrunParts | public/main.js:1391-1424 | the payload is the twelve header bytes, four zero bytes for a key frame, then the size words |
| Mp4.TrunDecodes | public/main.js:1386-1426 | a track-run reader (section 8.8.8 of ISO/IEC 14496-12) reads the payload back as version 0, flags 0x205 or 0x201, the sample count, the data offset `offset + 8 + arraylen` when it fits the signed field, first-sample flags 0 only for a key frame, and every sample size |
| Mp4.FlagBits | public/main.js:1396-1397 | both flag values set data-offset-present and sample-size-present, first-sample-flags-present exactly for a key frame and no other per-sample field |
| Mp4.SignedPositive | public/main.js:1392 | a data offset below 2^31 reads back as itself from the signed 32-bit field |
| NaluStreamBuffer.Sub | public/main.js:1491 | `subarray(begin, end)` is the slice between the bounds when they are ordered and in range, and empty when the end comes first |
| NaluStreamBuffer.HeaderScanner.Next | public/main.js:1469-1485 | one call of the scanner resumes where the last one stopped and returns the index three bytes before the next one byte that follows three counted zeros, or nothing at the end |
| NaluStreamBuffer.StopFirst | public/main.js:1470-1483 | the scan stops at the first start code from its position on, at the end when there is none, and skips no start code |
| NaluStreamBuffer.StartAtCode | public/main.js:1476-1479 | where the scanner reports a start code the bytes are exactly 00 00 00 01 |
| NaluStreamBuffer.StopFrom | public/main.js:1468-1485 | a call after a start code stops at the next 00 00 00 01 at least four bytes on, and no start code lies in between |
| NaluStreamBuffer.HeadersSpaced | public/main.js:1500-1503 | the indices successive calls return are increasing, at least four bytes apart, and each is a start code |
| NaluStreamBuffer.HeadersComplete | public/main.js:1500-1503 | the calls return every start code after the position and nothing else |
| NaluStreamBuffer.HeadersExact | public/main.js:1467-1503 | the loop of `append` sees exactly the start codes of the buffer from index 3 on |
| NaluStreamBuffer.OnlyFourByteCodes | public/main.js:1472-1481 | a three-byte code 00 00 01 and a run 00 00 00 00 01 are not split points; 00 00 00 01 is |
| NaluStreamBuffer.JoinAppend | public/main.js:1500-1503 | the bytes of two runs of units are the bytes of each, one after the other |
| NaluStreamBuffer.UnitsJoin | public/main.js:1500-1504 | units cut at spaced start codes, each behind its start code, followed by the kept rest give the bytes back; the rest begins with a start code |
| NaluStreamBuffer.SplitRoundTrip | public/main.js:1498-1504 | splitting a buffer that begins with a start code loses no byte: one unit per start code found, and the units and the kept rest rebuild the buffer |
| NaluStreamBuffer.SplitStep | public/main.js:1500-1502 | one more call that finds a start code adds one unit, from the last index plus 4 to the new index |
| NaluStreamBuffer.SplitEnd | public/main.js:1500-1504 | when the calls are over no unit is added and the rest from the last index is kept |
| NaluStreamBuffer.AppendKeepsStream | public/main.js:1466-1506 | the emitted units, each after a start code, followed by the new buffer are the old buffer followed by the chunk, and the new buffer again begins with a start code |
| NaluStreamBuffer.MergeKeepsStream | public/main.js:1495-1506 | on the merge path the units and the new buffer rebuild the merged buffer |
| NaluStreamBuffer.FlushKeepsStream | public/main.js:1489-1506 | on the flush path the pending unit, the chunk's units and the new buffer rebuild the pending bytes followed by the chunk |
| NaluStreamBuffer.FlushEmitsPending | public/main.js:1489-1494 | a chunk that begins with 00 00 00 01 flushes the pending bytes after their first four as one unit, and is then split as if nothing were pending |
| NaluStreamBuffer.VideoStreamBuffer.Clear | public/main.js:1463-1465 | `clear` drops the pending bytes |
| NaluStreamBuffer.VideoStreamBuffer.MergeBuffer | public/main.js:1507-1518 | `mergeBuffer` returns a fresh array of the pending bytes, if any, then the chunk, as long as both together |
| NaluStreamBuffer.VideoStreamBuffer.Append | public/main.js:1466-1506 | `append` returns the units `AppendOf` gives and keeps its rest as the new pending buffer |
| NaluStreamBuffer.Scan | public/main.js:1498-1504 | the loop of `append` pushes exactly the units between the start codes found and leaves the rest from the last start code |
| H264BitStream.BitStream.constructor | public/main.js:34-38 | a new stream holds the bytes with its index at bit 0 |
| H264BitStream.BitStream.SkipBits | public/main.js:46-51 | `skipBits` fails with "no bytes available" and keeps the index when fewer than `size` bits are left, and otherwise moves the index by `size` |
| H264BitStream.BitStream.GetBits | public/main.js:56-78 | `getBits` fails when fewer than `size` bits are left after the index; otherwise it returns the signed 32-bit value of the bits read and moves the index by `size` exactly when `moveIndex` holds |
| H264BitStream.BitStream.ReadBits | public/main.js:52-55 | `readBits` reads at the index and moves it by `size`, or fails and keeps it |
| H264BitStream.BitStream.SkipLZ | public/main.js:79-88 | `skipLZ` returns the count of zero bits from the index to the next one bit or the end, and moves the index past them only when a one bit follows |
| H264BitStream.BitStream.SkipUEG | public/main.js:89-94 | `skipUEG` and `skipEG` move the index exactly as reading an Exp-Golomb number does, and fail exactly when that read fails |
| H264BitStream.BitStream.ReadUEG | public/main.js:95-98 | `readUEG` gives the result and the new index of the unsigned Exp-Golomb read at the old index |
| H264BitStream.BitStream.ReadEG | public/main.js:99-106 | `readEG` gives the result and the new index of the signed Exp-Golomb read at the old index |
| H264BitStream.SkipScalingList | public/main.js:327-337 | `skipScalingList` reads a delta only while the next scale is non-zero, keeps the last non-zero scale, and ends where the reference reading of the list ends |
| H264BitStream.WordBound | public/main.js:63-77 | every read is a 32-bit pattern |
| H264BitStream.ReadInByte | public/main.js:66-70 | a read that ends inside its byte is that byte's remaining bits shifted right |
| H264BitStream.ReadAcrossBytes | public/main.js:71-77 | a read that crosses a byte boundary is the byte's remaining bits shifted left over the recursive read and ORed with it, in 32-bit arithmetic |
| H264BitStream.ChunkField | public/main.js:63-64 | `data[offsetBits / 8] & 255 >>> offset` is the number formed by the bits from `offsetBits` to the end of that byte |
| H264BitStream.WordField | public/main.js:56-78 | a read of at most 32 bits is the number those bits form, most significant first, with zeros past the end of the data |
| H264BitStream.ReadValueWord | public/main.js:52-55 | a read of up to 32 bits at the index is the number of the bits it covers |
| H264BitStream.ZeroBitsStep | public/main.js:81-86 | one step of `skipLZ`: a one-bit read is non-zero exactly at a one bit, where the count stops |
| H264BitStream.ZeroBitsRules | public/main.js:79-88 | the bits `skipLZ` counts are all zero, they stay inside the data, and a one bit or the end follows them |
| H264BitStream.UEGValue | public/main.js:95-98 | `readUEG` returns the code number 2^k - 1 + suffix of section 9.1 of ITU-T H.264 (k leading zeros, k suffix bits) and moves 2k + 1 bits, for k up to 30; with 31 zeros the 32-bit read makes it 2^32 smaller |
| H264BitStream.UEGShort | public/main.js:95-98 | when the code word runs past the data `readUEG` fails with "no bytes available" |
| H264BitStream.SignedOfRules | public/main.js:99-106 | `readEG` maps an odd code number k to (k + 1) / 2 and an even one to -k / 2, the mapping of section 9.1.1 of ITU-T H.264 |
| H264BitStream.SignedOfRoundTrip | public/main.js:99-106 | the mapping undoes the signed-to-code mapping for every integer |
| H264BitStream.ZeroScaleStops | public/main.js:330-336 | once the next scale is zero the rest of the list reads nothing |
| H264BitStream.FirstZeroStops | public/main.js:327-337 | a first delta that brings the scale to zero makes a list of any length read exactly one signed number |
| BitReader.Int32Of | src-server/scrcpySession.js:21 | the shift-and-OR accumulation is int32 arithmetic: a value below 2^31 is kept, and any 32-bit pattern becomes a signed 32-bit number |
| BitReader.ReadBit | src-server/scrcpySession.js:16-26 | a one-bit read yields `null` at the end of the data and otherwise the next bit, moving one bit on |
| BitReader.ReadBitsAdvance | src-server/scrcpySession.js:16-26 | a read of 1 to 32 bits yields a value exactly when the bits are there and then moves by exactly that many bits; otherwise it yields `null` with the position at the end |
| BitReader.BitOfByte | src-server/scrcpySession.js:21 | bit `8i + j` of the bit string is `(buffer[i] >> (7 - j)) & 1` |
| BitReader.ByteAligned | src-server/scrcpySession.js:16-26 | eight bits read at a byte boundary are that byte |
| BitReader.ByteBits | src-server/scrcpySession.js:16-26 | the first `m` bits of a byte read as the byte shifted right by `8 - m` |
| BitReader.SignedRoundTrip | src-server/scrcpySession.js:34-37 | the mapping of `readSE` undoes the se(v) code numbering of Table 9-3 of ITU-T H.264 |
| BitReader.ZerosCounted | src-server/scrcpySession.js:28-29 | on `k` zeros and a one (k at most 31) the loop stops with `k` counted, one bit past the one |
| BitReader.UEDecodes | src-server/scrcpySession.js:27-33 | `readUE` on the ue(v) code word of a code number (at most 30 leading zeros) returns that number and moves past the code word |
| BitReader.UEAt32Zeros | src-server/scrcpySession.js:28-29 | thirty-two zeros in a row make `readUE` return null after reading them |
| BitReader.SEDecodes | src-server/scrcpySession.js:34-37 | `readSE` on the se(v) code word of a value returns that value and moves past the code word |
| BitReader.ReadUEBits | src-server/scrcpySession.js:27-33 | `readUE` on `k` zeros and a one returns 2^k - 1 plus the next `k` bits and moves `2k + 1` bits |
| BitReader.SuffixValue | src-server/scrcpySession.js:30-32 | after 1 to 30 zeros and a one the suffix read gives `(1 << z) - 1` plus the next `z` bits |
| BitReader.ReadBitsExact | src-server/scrcpySession.js:16-26 | up to 30 bits inside the data read as the number they form |
| BitReader.Reader.constructor | src-server/scrcpySession.js:13-15 | a new reader is at bit 0 of its buffer |
| BitReader.Reader.Advance | src-server/scrcpySession.js:22-23 | the bit position moves by one, going on to the next byte after bit 7 |
| BitReader.Reader.NextBit | src-server/scrcpySession.js:21-23 | one loop step returns the current bit of the bit string and moves one bit on |
| BitReader.Reader.ReadBitsM | src-server/scrcpySession.js:16-26 | the `readBits` loop returns and moves exactly as the `ReadBits` function says |
| BitReader.Reader.ReadUEM | src-server/scrcpySession.js:27-33 | `readUE` returns and moves exactly as the `ReadUE` function says |
| BitReader.Reader.ReadSuffixM | src-server/scrcpySession.js:30-32 | the tail of `readUE` returns and moves exactly as `UESuffix` says |
| BitReader.Reader.ReadSEM | src-server/scrcpySession.js:34-37 | `readSE` returns and moves exactly as the `ReadSE` function says |
| BitReader.Reader.ReadBoolM | src-server/scrcpySession.js:38-40 | `readBool` returns and moves exactly as the `ReadBool` function says |
| BitField.FieldSplit | src-server/scrcpySession.js:21 | a field of `a + b` bits is its first `a` bits shifted left by `b` plus the next `b` |
| BitField.FieldInside | src-server/scrcpySession.js:19-24 | inside the data a field is the value of its bits |
| BitField.FieldPastEnd | public/main.js:63-64 | past the end of the data every field reads zero |
| BitField.FieldByte | src-server/scrcpySession.js:21 | eight bits at a byte boundary are that byte |
| BitField.PackBits | src-server/scrcpySession.js:21 | packing a bit string into bytes keeps every bit |
| BitField.FieldOfPack | src-server/scrcpySession.js:16-26 | packed bits have the fields of the bits themselves |
| Sps.StartCodeLength | src-server/scrcpySession.js:45-49 | the offset skipped is 3 exactly for a leading 00 00 01, 4 exactly for a leading 00 00 00 01, and 0 otherwise |
| Sps.NalUnitType | src-server/scrcpySession.js:51 | `nal_unit_type` is the low five bits of the header byte |
| Sps.ChromaStep | src-server/scrcpySession.js:56-71 | outside the thirteen high profiles the chroma format stays 4:2:0 with no separate planes and nothing is read; a parsed `chroma_format_idc` above 3 fails, and separate planes come only with 3 |
| Sps.HeaderStep | src-server/scrcpySession.js:54-88 | a parsed header has `chroma_format_idc` at most 3, and separate colour planes only with 4:4:4 |
| Sps.TailStep | src-server/scrcpySession.js:72-88 | the fields after the chroma format keep the chroma format read before them |
| Sps.FrameSizeIsStandard | src-server/scrcpySession.js:89-99 | for every chroma format of the standard the crop units are those of section 7.4.2.1.1 of ITU-T H.264 (SubWidthC, SubHeightC), so the size is the standard's frame size |
| Sps.ParsedSizeIsStandard | src-server/scrcpySession.js:43-102 | a parsed SPS comes from a type-7 unit, its size is the one computed from its header, and it is the standard's size whenever `chroma_format_idc` reads non-negative |
| Sps.StartCodeIgnored | src-server/scrcpySession.js:45-50 | a three- or four-byte start code in front of a unit does not change the result |
| Sps.OnlyType7 | src-server/scrcpySession.js:50-51 | an empty RBSP or a unit of any type other than 7 gives `null` |
| Sps.ListsFailurePersists | src-server/scrcpySession.js:64-70 | a failed read inside a scaling list ends the loop over the lists with `null` |
| Sps.ListFailurePersists | src-server/scrcpySession.js:67-68 | a failed `delta_scale` read ends a scaling list with `null` |
| Sps.ZeroScaleReadsNothing | src-server/scrcpySession.js:67-69 | once `nextScale` is zero the rest of a scaling list reads no bit and keeps `lastScale` |
| Sps.ParseSpsM | src-server/scrcpySession.js:43-102 | `parseSPS`, run on a bit reader, returns what the `ParseSps` function gives |
| Sps.HeaderM | src-server/scrcpySession.js:54-88 | the reads from `profile_idc` to the cropping window return and move as `HeaderStep` says |
| Sps.TailM | src-server/scrcpySession.js:72-88 | the reads from `log2_max_frame_num_minus4` on return and move as `TailStep` says |
| Sps.ChromaM | src-server/scrcpySession.js:56-71 | the chroma reads return and move as `ChromaStep` says |
| Sps.MatrixM | src-server/scrcpySession.js:60-70 | the bit depths, the bypass flag and the scaling matrix move the reader as `MatrixStep` says |
| Sps.ScalingListsM | src-server/scrcpySession.js:63-70 | the loop over the `limit` lists moves the reader as `ScalingLists` says |
| Sps.ListEntryM | src-server/scrcpySession.js:65-66 | one list is read only when its flag reads as one, with 16 entries for the first six and 64 otherwise |
| Sps.ScalingListM | src-server/scrcpySession.js:66-69 | the `j` loop of a list moves the reader as `ScalingList` says and fails when it does |
| Sps.ScaleEntryM | src-server/scrcpySession.js:68-69 | one entry reads `delta_scale` only while `nextScale` is non-zero, sets `nextScale` to `(lastScale + delta + 256) % 256` and keeps the last non-zero scale |
| Sps.PocM | src-server/scrcpySession.js:72-78 | the frame-number and picture-order-count reads move the reader as `PocStep` says |
| Sps.SkipSEM | src-server/scrcpySession.js:77 | `count` discarded `readSE` calls move the reader as `SkipSE` says |
| Sps.FrameM | src-server/scrcpySession.js:79-82 | the reads from `max_num_ref_frames` to `direct_8x8_inference_flag` return and move as `FrameStep` says |
| Sps.CropM | src-server/scrcpySession.js:83-88 | the cropping flag and offsets return and move as `CropStep` says |
| Aac.AscLayout | src-server/scrcpySession.js:111-114 | the fields are read from the bit string, with zero bits past the end of the buffer, and each is within its width |
| Aac.ValidateOutcome | src-server/scrcpySession.js:115-118 | a configuration is accepted exactly for object types 2, 5 and 29, one of the thirteen table rates or index 15 with a non-zero explicit rate, and 1 to 7 channels; the profile is then `PROFILE_MAP[objectType]` and each refusal carries the source's message |
| Aac.AscLayoutRoundTrip | src-server/scrcpySession.js:104-114 | reading back the bits of a configuration gives its fields |
| Aac.AscBitsFields | src-server/scrcpySession.js:111-114 | the written fields sit where the four `readBits` calls read them |
| Aac.AscRoundTrip | src-server/scrcpySession.js:104-119 | parsing a written configuration applies exactly the parser's checks to the written fields |
| Aac.AscReader.constructor | src-server/scrcpySession.js:105 | the closure starts at offset 0 with no pending bits |
| Aac.AscReader.ReadBits | src-server/scrcpySession.js:106-110 | `readBits(numBits)` returns the next `numBits` bits of the buffer, most significant first, and moves that far |
| Aac.AscReader.Load | src-server/scrcpySession.js:107 | one load appends the next byte to the pending bits |
| Aac.AscReader.Take | src-server/scrcpySession.js:108-109 | the last step returns the first `numBits` pending bits and keeps the rest |
| Aac.LoadStep | src-server/scrcpySession.js:107 | `(bits << 8) \| buffer[offset]` appends a byte and stays below 2^31 while fewer than 24 bits are pending |
| Aac.TakeStep | src-server/scrcpySession.js:108-109 | the shift and the two masks split the pending bits into the first `n` and the rest |
| Aac.ParseAscM | src-server/scrcpySession.js:104-119 | `parseAudioSpecificConfig` returns what the `ParseAsc` function gives |
| Aac.ReadAscM | src-server/scrcpySession.js:111-114 | the four reads give the layout of the buffer |
| Aac.ReadHeadM | src-server/scrcpySession.js:111 | the first two reads are bits 0-4 and 5-8 |
| Aac.ReadTailM | src-server/scrcpySession.js:113-114 | the explicit rate is read only for index 15, and the channels come after it |
| Aac.AdtsHeader | src-server/scrcpySession.js:121-130 | the ADTS header is seven bytes |
| Aac.AdtsHeaderDecodes | src-server/scrcpySession.js:121-130 | the header decodes (section 1.A.2.2 of ISO/IEC 14496-3) to syncword 0xFFF, ID 1, layer 0, no CRC, the profile modulo 4, the rate index, the channels modulo 8, frame length `7 + aacFrameLength` modulo 2^13, fullness 0x7FF and one raw data block |
| Aac.AdtsFields | src-server/scrcpySession.js:124-128 | the seven byte values carry those fields at their bit positions |
| Aac.AdtsOfParsedConfig | src-server/scrcpySession.js:104-130 | for a parsed configuration the header carries its rate index, channels and frame length; only AAC LC's profile 1 survives the 2-bit field, SBR and PS are written as 0 |
| Aac.AdtsOfConfig | src-server/scrcpySession.js:121-128 | the same for any configuration the parser can return |
| DynBuffers.GrownCapacity | server.js:981-988 | the buffer grows only when the bytes do not fit, and then to `max(2 * capacity, needed + 1024)`, so they fit |
| DynBuffers.DynBuffer.constructor | server.js:898-901 | a socket's buffer starts empty with 512 KiB of room |
| DynBuffers.DynBuffer.Append | server.js:980-997 | after a chunk arrives the pending bytes are the old ones followed by the chunk, in a buffer of the grown capacity |
| DynBuffers.DynBuffer.Consume | server.js:1320-1321 | dropping `n` bytes leaves the pending bytes after the first `n`, in the same buffer |
| DynBuffers.DynBuffer.Clear | server.js:1393 | a control socket that has forwarded its bytes has none pending |
| DynBuffers.DynBuffer.Reclaim | server.js:1001-1005 | an emptied buffer larger than 512 KiB is replaced by a fresh one of 512 KiB; otherwise nothing changes |
| DynBuffers.CopyPrefix | server.js:987 | `copy(newBuffer, 0, 0, length)` copies the first `length` bytes |
| DynBuffers.WriteAt | server.js:996 | `data.copy(buffer, length)` puts the chunk after the pending bytes and keeps them |
| DynBuffers.ShiftDown | server.js:1320 | `copy(buffer, 0, n, length)` moves bytes `n` to `length - 1` to the front without overwriting a byte before it is read |
| Demux.ExpectedSockets | src-server/scrcpySession.js:414-417 | the expected streams are exactly the enabled ones, in the order video, audio, control; with none enabled setup throws "No streams enabled." |
| Demux.NewSession | src-server/scrcpySession.js:404-413 | a new session has no sockets, has sent nothing and has counted no connection |
| Demux.Accept | src-server/scrcpySession.js:289-295 | a connection beyond the expected count is refused and changes nothing; otherwise the count goes up and the socket is registered as unidentified, awaiting its initial data, with an empty buffer |
| Demux.Remove | src-server/scrcpySession.js:157 | `unidentifiedSockets.delete(id)` keeps every other socket and no more |
| Demux.NotifyStarted | src-server/scrcpySession.js:336-354 | "Streaming started" is sent once, when every expected stream has its socket, and the session module then writes `[10, 0]` to the control socket when screen-off was asked for; nothing else changes |
| Demux.Forward | src-server/scrcpySession.js:253-259 | a control socket forwards every pending byte as one device message and keeps none; with nothing pending the session is unchanged |
| Demux.Deduce | src-server/scrcpySession.js:373-401 | the deduction keeps every socket and what was sent, and each socket either keeps its state or streams with no more bytes than before |
| Demux.DeduceControl | src-server/scrcpySession.js:380-399 | the one remaining unidentified socket becomes the streaming control socket and the unidentified list empties |
| Demux.FlushControl | src-server/scrcpySession.js:399 | the nested pass on the deduced control socket forwards its bytes and keeps it streaming as the control socket |
| Demux.Claim | src-server/scrcpySession.js:383-384 | the claimed socket is the control socket, typed control and streaming, and no socket is left unidentified |
| Demux.DeductionRule | src-server/scrcpySession.js:373-401 | the control socket is deduced exactly when control is enabled and not yet identified, every expected socket has connected, video and audio are identified or not expected, and exactly one socket is unidentified; it is then that socket |
| Demux.NameBytes | src-server/scrcpySession.js:135 | the device name is the part of the 64-byte field before its first NUL |
| Demux.InitialStep | src-server/scrcpySession.js:132-146 | the initial-data handler keeps the session invariant and what was sent; it goes on only after taking the name or when the name is already known |
| Demux.Name | src-server/scrcpySession.js:133-142 | the first socket with 64 bytes sends the device name, drops those bytes, marks the name received and moves on to its metadata |
| Demux.Identify | src-server/scrcpySession.js:150-174 | identifying a socket keeps the session invariant and what was sent before |
| Demux.Assign | src-server/scrcpySession.js:156-172 | the identified socket takes its type, drops its header bytes, starts streaming and leaves the unidentified list, and its info message is sent |
| Demux.MetadataStepAsWritten | src-server/scrcpySession.js:148-200 | the metadata handler as written keeps the session invariant |
| Demux.MetadataStep | src-server/scrcpySession.js:148-200 | the corrected handler: a pass that identifies nothing waits for more data |
| Demux.NextPacket | src-server/scrcpySession.js:202-223 | a packet is taken only when its 12-byte header and its whole payload are buffered; a size above 10 MiB is refused; the payload is the bytes after the header, and the config flag is the top bit of byte 0 |
| Demux.PacketHeader | src-server/scrcpySession.js:203-206 | a device packet header is 12 bytes |
| Demux.PacketRoundTrip | src-server/scrcpySession.js:202-210 | a framed packet is read back whole, with its config flag, whatever follows it |
| Demux.PacketPrefix | src-server/scrcpySession.js:209-222 | more bytes after a whole packet do not change it and stay for the next one |
| Demux.Refuse | src-server/scrcpySession.js:207 | an oversize header destroys the socket and puts it in the unknown state |
| Demux.Destroy | src-server/scrcpySession.js:239 | a failed AudioSpecificConfig destroys the socket |
| Demux.Consume | src-server/scrcpySession.js:221-222 | a handled packet is dropped from the front of the buffer |
| Demux.Resolution | src-server/scrcpySession.js:211-218 | a config packet whose SPS parses is checked against the current size, which is updated and announced only when it changes |
| Demux.VideoStep | src-server/scrcpySession.js:202-225 | an incomplete packet changes nothing and waits; an oversize one stops the socket; a whole one is sent as `[0] + payload`, dropped from the buffer, and processing goes on |
| Demux.VideoPacket | src-server/scrcpySession.js:209-222 | a whole video packet is sent last as `[0] + payload` and dropped from the buffer |
| Demux.ShowFrame | src-server/scrcpySession.js:211-220 | the frame is sent after any resolution change; only the session module looks at the SPS |
| Demux.AudioStep | src-server/scrcpySession.js:227-251 | an incomplete packet waits; an oversize one stops the socket; a whole one is dropped from the buffer unless its configuration fails |
| Demux.AudioPacket | src-server/scrcpySession.js:233-249 | the first config packet sets the audio metadata or, when it does not parse, destroys the socket and sends nothing; a media packet once the metadata is known is sent as `[1] + ADTS header + payload`; every other packet is dropped silently |
| Demux.ConfigPacket | src-server/scrcpySession.js:235-240 | the first config packet's AudioSpecificConfig becomes the metadata and is announced, or the socket is destroyed |
| Demux.FramePacket | src-server/scrcpySession.js:241-248 | a media packet is sent with an ADTS header for its payload length in front |
| Demux.StreamingStep | src-server/scrcpySession.js:261-268 | the streaming handler keeps the session invariant and what was sent |
| Demux.Step | src-server/scrcpySession.js:274-282 | one pass of the `switch` keeps the session invariant and what was sent |
| Demux.StepDecreases | src-server/scrcpySession.js:274-282 | each pass that asks for another leaves the socket live and closer to having consumed its bytes, so the loop with the corrected handler ends |
| Demux.Process | src-server/scrcpySession.js:270-283 | `processSingleSocket` keeps the session invariant and every message already sent |
| Demux.StartedOnce | src-server/scrcpySession.js:336-343 | however the bytes arrive, "Streaming started" is sent at most once |
| Demux.ProcessSingleSocket | src-server/scrcpySession.js:270-283 | the `while` loop ends in the state `Process` describes |
| Demux.AsWrittenRepeats | src-server/scrcpySession.js:194-199 | as written, a socket awaiting metadata that cannot be identified in a session without a control stream is passed over with nothing changed and another pass asked for |
| Demux.PartialVideoHeader | src-server/scrcpySession.js:150-151 | the video-only session with one byte of the codec header buffered satisfies the session invariant |
| Demux.PartialHeaderSpins | server.js:1281-1291 | on that session the pass as written repeats itself forever in both copies, while the corrected loop stops after one pass and keeps the byte |
| Lifecycle.Connect | src-server/scrcpySession.js:285-318 | an accepted connection beyond the expected count changes nothing; otherwise the socket is registered and processed at once when the browser client is open, and destroyed, sending nothing, when it is not |
| Lifecycle.Received | src-server/scrcpySession.js:302-308 | the chunk is appended to the socket's pending bytes, with its state and type kept |
| Lifecycle.OnData | src-server/scrcpySession.js:297-311 | with the browser client gone the socket is destroyed and nothing is sent; otherwise the chunk is appended and the socket processed |
| Lifecycle.Clear | src-server/scrcpySession.js:323-327 | only the first of the video, audio and control references that is this socket is cleared; nothing else changes |
| Lifecycle.Cleanup | src-server/scrcpySession.js:454-487 | cleanup destroys every socket the session still references, keeps the rest, and tells an open client that streaming stopped |
| Lifecycle.OnClose | src-server/scrcpySession.js:312-334 | the close handlers clear the reference; the session ends exactly when the cleanup test holds, and otherwise the socket leaves the unidentified list and nothing else changes |
| Lifecycle.CleanupClosesAll | src-server/scrcpySession.js:454-461 | when the session ends every other socket it referenced is destroyed |
| SessionOptions.BoolText | server.js:659 | `String(b)` is `"true"` exactly for true |
| SessionOptions.WellFormedKeys | src-server/scrcpySession.js:436 | an option object lists each key once, and exactly the keys that have a value |
| SessionOptions.FlagIs | server.js:728-730 | a boolean option compares equal to `'true'` exactly when it holds, and to `'false'` exactly when it does not |
| SessionOptions.Base | src-server/constants.js:20-24 | the base options are the log level, the video codec and the audio codec, in that order |
| SessionOptions.Positive | server.js:653-657 | a numeric option is set exactly when `parseInt` gave a number above 0, and then to that number |
| SessionOptions.PositiveRoundTrip | server.js:653 | the rendered number parses back to the number `parseInt` gave |
| SessionOptions.SizeOption | server.js:652-653 | `max_size` is added as the last key exactly when the size parses above 0 |
| SessionOptions.RateOptions | server.js:654-657 | `max_fps` and `video_bit_rate` are added, in that order, each when it parses above 0 |
| SessionOptions.SwitchOptions | server.js:658-663 | `audio`, `video` and `control` are set from the request, in that order |
| SessionOptions.LegacyRunOptions | server.js:649-663 | the monolithic server's options are the base ones, the numbers that parse above 0, then audio, video unless switched off and control, and nothing else |
| SessionOptions.LegacyServerArgs | server.js:769-777 | the monolithic server's argument list is version, scid and log level, the codec of each enabled stream, the set numeric options, and a `=false` switch per disabled stream |
| SessionOptions.LegacyStreams | server.js:728-731 | each stream is announced with its codec or switched off, never both; the expected sockets are those of the enabled streams, and a request with every stream off is refused |
| SessionOptions.LegacyNumbers | server.js:772-774 | the numeric arguments are exactly the numbers that parsed above 0 |
| SessionOptions.ModeOf | src-server/websocketHandlers.js:52-56 | each display-mode string names its own mode |
| SessionOptions.StartOptions | src-server/websocketHandlers.js:44-56 | the session module's options: audio forced off below Android 11, power options only when they change the default, display and orientation options from the display mode, and no `max_size` |
| SessionOptions.PowerOptions | src-server/websocketHandlers.js:50-51 | `power_on` is set only to false, `power_off_on_close` only to true |
| SessionOptions.DisplayOptions | src-server/websocketHandlers.js:52-56 | the display and orientation options are added on top of the others, keys in the order they are set |
| SessionOptions.DisplayMapping | src-server/websocketHandlers.js:52-55 | overlay with an id, native taskbar and DeX set `display_id` to the id, `0` and `2`; virtual sets `new_display` to `resolution/dpi` unless either is `reset`; never both |
| SessionOptions.StartKeyPresence | src-server/websocketHandlers.js:44-56 | a display or orientation key is in the key order exactly when its option is set, and `max_size` never is |
| SessionOptions.Rendered | src-server/scrcpySession.js:436-438 | at most one argument per key |
| SessionOptions.RenderedAll | src-server/scrcpySession.js:436-438 | when every key has a value, each key gives one `key=value` argument at its own position |
| SessionOptions.ModularServerArgs | src-server/scrcpySession.js:435-438 | the session module's argument list is version and scid, then `key=value` for each option with a value, in insertion order |
| SessionOptions.ModularArgsShape | src-server/scrcpySession.js:435-438 | for an option object each option reaches the device server exactly once, at the position of its key |
| SessionOptions.OldAndroidNoAudio | src-server/websocketHandlers.js:47 | below Android 11 audio is off and no audio socket is expected; audio is on exactly from Android 11 when asked for |
| SessionOptions.StartStreams | src-server/scrcpySession.js:414-417 | the session module expects video unless switched off, audio only from Android 11, and control when asked for |
| SessionOptions.AudioNotice | src-server/websocketHandlers.js:63 | the client is told that audio was dropped exactly when it asked for audio below Android 11 |
| SessionOptions.HexPadValue | server.js:665 | `toString(16).padStart` writes hex digits that read back as the number |
| SessionOptions.Scid | server.js:665 | the session id has eight characters |
| SessionOptions.ScidValue | server.js:665 | the session id is eight lower-case hex digits that read back as the 31 low bits of the random word, and its first digit is at most 7 |
| SessionOptions.ScidInjective | src-server/websocketHandlers.js:58 | random words whose 31 low bits differ give different ids |
| SessionOptions.Port | server.js:666 | the TCP port is one of the thousand from 27183 |
| SessionOptions.PortsDistinct | src-server/websocketHandlers.js:59 | ports repeat only every thousand sessions |
| StartRequests.LegacyChecks | server.js:631-646 | the monolithic server refuses an unknown client or one with a session, then an empty device list; otherwise it uses the first device |
| StartRequests.LegacyHandleStart | server.js:629-690 | a refused check is replied with its message; a request with every stream off fails setup with "No streams (video, audio, control) enabled."; otherwise the session starts on the first device with the generated id, the port for the session count, the options of the request and the streams they enable |
| StartRequests.AndroidVersion | src-server/websocketHandlers.js:39-42 | the trimmed version output starting with digits gives their value; otherwise the result is the "Invalid Android version" error with the trimmed output |
| StartRequests.AndroidVersionOf | src-server/websocketHandlers.js:39-41 | a version such as `13.0.1` between white space gives its major version |
| StartRequests.FirstWithId | src-server/websocketHandlers.js:27 | the index found is the first at or after the start whose device has the id, and none is found exactly when no device there has it |
| StartRequests.DeviceStatus | src-server/websocketHandlers.js:27 | the status is the state of a listing of the device, or `not found` when there is none |
| StartRequests.DeviceStatusFirst | src-server/websocketHandlers.js:27 | the status shown is the state of the first listing of the device |
| StartRequests.StartChecks | src-server/websocketHandlers.js:9-42 | the session module's checks pass exactly for a known client without a session, a device id, a device in state `device` and a version output starting with digits, and then give the major version |
| StartRequests.ClientRefusals | src-server/websocketHandlers.js:9-19 | an unknown client or one with a session is refused first, then a request without a device id |
| StartRequests.UnavailableRefusal | src-server/websocketHandlers.js:25-30 | a device not in state `device` is refused with the state it is listed in |
| StartRequests.VersionRefusal | src-server/websocketHandlers.js:38-42 | a version output that does not start with digits fails setup with that output, trimmed |
| StartRequests.HandleStart | src-server/websocketHandlers.js:8-70 | a failed check is replied with its message; otherwise the session starts with the options for the device's major version |
| StartRequests.StartSession | src-server/websocketHandlers.js:44-63 | the session starts with the options and port the request gives, or is refused when no stream is enabled, and reports the audio notice below Android 11 |
| StartRequests.SessionStartOptions | src-server/websocketHandlers.js:44-56 | the options have the key order of the request and enable the streams it enables |
| AdbService.ExecuteAdbShell | src-server/adbService.js:54-77 | a shell command succeeds exactly when the device ran it, giving its trimmed output, and otherwise fails with the adb error message |
| AdbService.ExecuteCommand | src-server/adbService.js:37-51 | a host command that ran gives its output whatever it printed on stderr; a failure is "Failed to execute:" with the description, or the command when there is none, and the error |
| AdbService.GatherAppend | src-server/adbService.js:116-121 | collecting the matches of two blocks of lines gives those of the first block, then those of the second |
| AdbService.ActiveDevicesMembers | src-server/adbService.js:83 | a device is reported exactly when adb lists it in state `device`, `unauthorized` or `offline` |
| AdbService.ActiveDevicesShorter | src-server/adbService.js:83-84 | the report is never longer than the list |
| AdbService.ActiveDevicesAppend | src-server/adbService.js:83-84 | the filter keeps the listing order |
| AdbService.NoTagNoDisplay | src-server/adbService.js:117 | a line without `--display-id=` gives no display |
| AdbService.DisplaysOfAppend | src-server/adbService.js:115-121 | each line is matched on its own, and the displays keep the line order |
| AdbService.DisplayLineParses | src-server/adbService.js:117-119 | a line `--display-id=<id> (<resolution>)` gives back the id and the resolution |
| AdbService.DisplayTailParses | src-server/adbService.js:117 | the text after the tag gives back the id and the resolution |
| AdbService.ParenTextParses | src-server/adbService.js:117 | optional white space and a parenthesised text without `)` give back the text |
| AdbService.SkipIndent | src-server/adbService.js:117 | an unanchored search finds the first place the pattern matches |
| AdbService.DisplaysOfStep | src-server/adbService.js:116-121 | each line adds its match, if any, after those of the lines before it |
| AdbService.ListDisplays | src-server/adbService.js:112-124 | a failed list command passes its error on; otherwise the displays are the matches of the lines of the output, in order |
| AdbService.RangeFormParses | src-server/adbService.js:150-154 | the output `volume is <c> in range [<min>..<max>]` gives the current level and the maximum |
| AdbService.PairFormParses | src-server/adbService.js:150-154 | the output `[<c>, <max>]` gives the current level and the maximum |
| AdbService.BracketAt | src-server/adbService.js:150 | at a `[` only the second alternative of the pattern can match |
| AdbService.SkipPrefix | src-server/adbService.js:150 | the search finds the first place one of the alternatives matches |
| AdbService.RoundDiv | src-server/adbService.js:177 | `Math.round` of a quotient is the nearest integer, halves rounding up |
| AdbService.VolumeSession.constructor | server.js:726 | a session starts with no cached Android version and no cached maximum volume |
| AdbService.VolumeSession.QueryVolume | src-server/adbService.js:130-163 | the session's query gives the answer and leaves the cache `VolumeQuery` describes |
| AdbService.VolumeSession.SetVolume | src-server/adbService.js:167-185 | the session's setting gives the answer and leaves the cache `VolumeSetting` describes |
| AdbService.FirstSession | src-server/adbService.js:128 | the session found is the first, in insertion order, for the device, and none is found exactly when no session is for it |
| AdbService.GetMediaVolumeInfo | src-server/adbService.js:127-164 | without a session for the device the query fails with "No session found for device"; otherwise that session answers and updates its cache, and no other session changes |
| AdbService.SetMediaVolume | src-server/adbService.js:166-186 | without a session the setting fails the same way; otherwise that session sets the level and updates its cache, and no other session changes |
| AdbService.SetCommandForm | src-server/adbService.js:181 | Android 10 and earlier set the level with `media volume --set`, later versions with `cmd media_session volume --set` |
| AdbService.ReadVolume | src-server/adbService.js:145-152 | the volume query of a version succeeds exactly when the command ran and its trimmed output matches, and gives the match |
| AdbService.VersionAfter | src-server/adbService.js:130-143 | a cached version is used as it is; otherwise the version is read from the device |
| AdbService.VolumeQuery | src-server/adbService.js:130-163 | cached values are kept; a query that succeeds has a maximum of at least 1, the cached or newly read maximum, and the current level the device printed |
| AdbService.VolumeSetting | src-server/adbService.js:167-185 | a cached maximum is kept; a successful setting has a maximum of at least 1 and a cached version, sends the level nearest to the percentage's share of the maximum, and that level lies between 0 and the maximum for a percentage from 0 to 100 |
| AdbService.Share | src-server/adbService.js:177 | the level is the nearest integer to `percentage / 100 * max`, and from 0 to `max` for a percentage from 0 to 100 |
| AdbService.LevelInRange | src-server/adbService.js:177 | a percentage from 0 to 100 gives a level from 0 to the maximum |
| AdbService.BatteryLevel | src-server/adbService.js:188-198 | the battery level is the trimmed output as a decimal number from 0 to 100; anything else is "Invalid battery level:" with the trimmed output |
| AdbService.BatteryLevelOf | src-server/adbService.js:191-194 | a level from 0 to 100, printed by the battery service, reads back |
| WsHandlers.SettingOrReads | src-server/websocketHandlers.js:228-231 | a printed setting is read back as its number, and a failed read gives the default |
| WsHandlers.NextRotationCycles | src-server/websocketHandlers.js:233 | the next rotation is `(current + 1) % 4`, stays in 0..3, and four quarter turns come back |
| WsHandlers.RotateStates | src-server/websocketHandlers.js:224-229 | a rotate request saves the device's initial rotation only when none is saved, and keeps every other device's entry |
| WsHandlers.CleanupStates | src-server/websocketHandlers.js:247-253 | a clean-up deletes the device's saved rotation only in the native-taskbar mode, and keeps every other entry |
| WsHandlers.RotateSavesOnce | src-server/websocketHandlers.js:225-229 | the rotation saved by the first request survives later ones, and defaults to user rotation 0 and accelerometer 1 when unreadable |
| WsHandlers.RotateThenCleanup | src-server/websocketHandlers.js:223-253 | a first rotation followed by a native-taskbar clean-up leaves the saved rotations as they were |
| WsHandlers.RotateMeaning | src-server/websocketHandlers.js:226-235 | a rotate request reads the initial state only when none is saved, locks the accelerometer just before it sets the next quarter turn last, and succeeds exactly when that last command does |
| WsHandlers.StepMessages | src-server/websocketHandlers.js:241-251 | each clean-up step gives one message, in order |
| WsHandlers.CleanupRestores | src-server/websocketHandlers.js:238-256 | the native-taskbar clean-up resets size and density, then restores the saved user and accelerometer rotation; other modes restore nothing, and only the overlay mode removes the overlay |
| WsHandlers.RotationStore.constructor | src-server/websocketHandlers.js:224 | no rotation is saved at first |
| WsHandlers.RotationStore.Rotate | src-server/websocketHandlers.js:223-237 | the rotate request leaves the saved rotations `RotateStates` gives, sends the commands `RotateCommands` lists and answers with the result of setting the next rotation |
| WsHandlers.RotationStore.SaveInitial | src-server/websocketHandlers.js:224-229 | the initial pair is read and saved only for a device without one |
| WsHandlers.RotationStore.Turn | src-server/websocketHandlers.js:230-235 | the turn reads the current rotation, locks the accelerometer and sets the next rotation |
| WsHandlers.RotationStore.Cleanup | src-server/websocketHandlers.js:238-256 | the clean-up sends the mode's steps, always answers success with their messages, and leaves the saved rotations `CleanupStates` gives |
| WsHandlers.RotationStore.RestorePhase | src-server/websocketHandlers.js:247-253 | the restore sends the saved rotation back and deletes it, in the native-taskbar mode only |
| WsHandlers.RotationStore.HandleAdbCommand | src-server/websocketHandlers.js:213-261 | the reply has type `<commandType>Response` and the command id; a missing device id and an unknown command type fail and change nothing; rotation and clean-up update the saved rotations as above; clean-up always succeeds; the other commands answer with their shell or listing result |
| WsHandlers.Commands | src-server/websocketHandlers.js:241-251 | the commands are those of the steps, in order |
| WsHandlers.StepsAppend | src-server/websocketHandlers.js:239-254 | the messages and commands of consecutive step lists are those of each list, one after the other |
| WsHandlers.VolumeValue | src-server/websocketHandlers.js:104-105 | a volume value is the decimal number of the request when it lies in 0..100, otherwise "Invalid volume value:" with the raw value |
| WsHandlers.VolumeValueOf | src-server/websocketHandlers.js:104 | every value from 0 to 100 is read back |
| WsHandlers.Percentage | src-server/websocketHandlers.js:118 | the percentage is the nearest integer to `current / max * 100`, and from 0 to 100 when the current level is at most the maximum |
| WsHandlers.PercentageInRange | src-server/websocketHandlers.js:118 | a current level at most the maximum gives a percentage from 0 to 100 |
| WsHandlers.SetThenGet | src-server/websocketHandlers.js:104-118 | a percentage set and read back is above the one set by at most `(max + 100) / (2 * max)` and below it by less than that (so by at most 1 from a maximum of 34 up, but by up to 3 for a maximum of 15), and equal to it when the maximum is at least 100 |
| WsHandlers.TargetOf | src-server/websocketHandlers.js:99-102 | a volume command targets the device of the client's session; without a session it is refused with "No active session", and without a device with "No device found" |
| WsHandlers.HandleVolume | src-server/websocketHandlers.js:98-109 | the refusals come in the order session, device, value, then the setting's own error; a valid value is set on the device's first session, and only then can a session's cache change |
| WsHandlers.HandleGetVolume | src-server/websocketHandlers.js:111-121 | the refusals come in the order session, device, then the query's error; a successful query answers the rounded percentage |
| WsHandlers.Dispatch | src-server/websocketHandlers.js:300-314 | a known action goes to its handler; a name every object inherits from `Object.prototype` is called like a handler, unbound: `constructor`, `isPrototypeOf` and `toString` return and nothing is sent, while the other nine (`__proto__`, `hasOwnProperty`, `valueOf`, `toLocaleString`, `propertyIsEnumerable` and the four `__define…__`/`__lookup…__` accessors) throw and are answered "Invalid message format"; any other name is answered "Unknown action:" with the name, and a message that is not JSON "Invalid message format" |
| WsHandlers.ErrorSent | src-server/websocketHandlers.js:304-314 | an error reply is sent as dispatched; a handler sends "Invalid message format" iff it throws; an inherited function that returns (`constructor`, `isPrototypeOf`, `toString`) sends nothing |
| QrPairing.FirstWhere | src-server/qrPairingService.js:48 | `find` gives the first record that satisfies the test, or none when no record does |
| QrPairing.FirstSomeNone | src-server/qrPairingService.js:44-55 | the loop returns nothing exactly when no service gives an endpoint |
| QrPairing.FirstMatchMeaning | src-server/qrPairingService.js:43-71 | the endpoint found is that of the first service that gives one, and none is found exactly when no service gives one |
| QrPairing.MatchMeaning | src-server/qrPairingService.js:45-52 | a service gives an endpoint only when its packet has answers, an address from its first A record or the packet, a PTR of the right kind naming the target (or, for connect, the address being the target IP) and an SRV for that PTR with a port other than 0 |
| QrPairing.FindTargetPairingService | src-server/qrPairingService.js:43-56 | the pairing search is the first match among the services for `_adb-tls-pairing._tcp.local` and the target instance |
| QrPairing.FindTargetConnectService | src-server/qrPairingService.js:58-71 | the connect search is the first match for `_adb-tls-connect._tcp.local` at the target IP |
| QrPairing.FindTarget | src-server/qrPairingService.js:44-55 | the `for` loop over the services returns the first match |
| QrPairing.IpPortForm | src-server/qrPairingService.js:196 | an accepted address is four dot-separated groups, a colon and a port |
| QrPairing.IpPortOf | src-server/qrPairingService.js:196 | four groups of one to three digits and a port of one to five digits are accepted |
| QrPairing.ConnectIp | src-server/qrPairingService.js:194-216 | `/connect-ip` answers 400 exactly for a malformed address, and success exactly when the address is well formed, the command ran and its output reports a connection |
| QrPairing.ConnectIpRule | src-server/qrPairingService.js:205 | a connection is reported when the lower-cased stdout says "connected to" or "already connected", or the lower-cased stderr says "connected to" |
| QrPairing.QrPayloadFields | src-server/qrPairingService.js:229 | the QR payload has the fields `WIFI:T:ADB`, `S:<service name>`, `P:<password>` and ends in `;;` |
| QrPairing.InitiateRule | src-server/qrPairingService.js:217-240 | when nothing else runs during its adb check: a start while processing is refused with 400 and changes nothing; a start with adb available sets the status to generating with processing on and not cancelled, names the service `WebAppQR-` plus the suffix, and answers the QR payload |
| QrPairing.ConcurrentInitiates | src-server/qrPairingService.js:217-225 | two requests that arrive while nothing is processing both pass the busy check before the awaited adb check, and both start a workflow, the second resetting a session that is processing |
| QrPairing.CancelledRunRevived | src-server/qrPairingService.js:161-184 | a cancel then a new start clears `isCancelled`, so a run of the cancelled session still waiting on `adb connect` reports success on confirming output |
| QrPairing.InitiatePayload | src-server/qrPairingService.js:228-229 | with an 8-character suffix and a 10-character password the service name has 17 characters and the payload splits into its fields |
| QrPairing.NanoidLacks | src-server/qrPairingService.js:228 | a nanoid never contains `;` |
| QrPairing.CancelRule | src-server/qrPairingService.js:241-252 | cancelling while processing marks the session cancelled and stops processing; otherwise it resets the session to idle; either way the status is broadcast once |
| QrPairing.ResumeKeepsValid | src-server/qrPairingService.js:73-191 | every step of the workflow keeps the session record consistent |
| QrPairing.CancelledStaysCancelled | src-server/qrPairingService.js:75-175 | once cancelled, every step leaves the session cancelled and not processing, and sends no command |
| QrPairing.CancelledNeverSucceeds | src-server/qrPairingService.js:75-189 | as long as no new session is started, however many of its awaits complete, a cancelled session never reports success |
| QrPairing.SuccessOnlyByConnect | src-server/qrPairingService.js:171-184 | success is reached only from the connect step of a session not cancelled, with output reporting the connection, and then records `address:port` and stops processing |
| QrPairing.FailureEnds | src-server/qrPairingService.js:96-124 | every failure of a session not cancelled sets the error status and ends the run, and the status is broadcast before processing is switched off |
| QrPairing.PairCommandRule | src-server/qrPairingService.js:90-109 | a pairing command is sent exactly when discovery finds the target service, and is `adb pair <address>:<port> <password>`; otherwise the search waits and retries |
| QrPairing.QrService.constructor | src-server/qrPairingService.js:8-17 | the service starts idle with "System Idle." and has broadcast nothing |
| QrPairing.QrService.Broadcast | src-server/qrPairingService.js:28-41 | a broadcast sends the current status and changes nothing |
| QrPairing.QrService.Reset | src-server/qrPairingService.js:20-26 | a reset clears the session to idle with the message and broadcasts it |
| QrPairing.QrService.Initiate | src-server/qrPairingService.js:217-240 | the route, with nothing interleaved, changes the session and broadcasts as `Initiated` describes |
| QrPairing.QrService.ResumeInitiate | src-server/qrPairingService.js:222-236 | after the adb check the route changes the session and broadcasts as `InitiateResumes` describes, on the session as it then is, without checking again that nothing is processing |
| QrPairing.QrService.Generate | src-server/qrPairingService.js:226-231 | generating broadcasts three times: the cleared session, the session generating, and the session with its name, password and QR payload |
| QrPairing.QrService.StartWorkflow | src-server/qrPairingService.js:74-80 | the workflow start stops at once when cancelled and otherwise starts the pairing discovery |
| QrPairing.QrService.Cancel | src-server/qrPairingService.js:241-252 | the route changes the session as `CancelRequested` describes and always answers that cancellation was initiated |
| QrPairing.QrService.StopCancelled | src-server/qrPairingService.js:75-78 | a cancelled run sets the cancelled status and stops processing |
| QrPairing.QrService.StopFailed | src-server/qrPairingService.js:98-100 | a failure sets the error status and message, broadcasts, then stops processing |
| QrPairing.QrService.Announce | src-server/qrPairingService.js:80 | a progress message is set and broadcast |
| QrPairing.QrService.StopUnexpected | src-server/qrPairingService.js:185-190 | an unexpected error, unless cancelled, sets the error status and stops processing |
| QrPairing.QrService.Resume | src-server/qrPairingService.js:84-184 | each event the run waits for changes the session as `Resumed` describes |
| QrPairing.QrService.ResumePairingLoop | src-server/qrPairingService.js:84-101 | the pairing discovery goes on while time is left, stops when cancelled, and fails when it times out |
| QrPairing.QrService.ResumePairingBrowse | src-server/qrPairingService.js:90-109 | a discovery result either finds the pairing service and sends the pair command, or waits for the next try |
| QrPairing.QrService.ResumePair | src-server/qrPairingService.js:110-132 | the pair outcome fails the run unless its output says "successfully paired"; then connect discovery starts |
| QrPairing.QrService.ResumeConnectLoop | src-server/qrPairingService.js:135-152 | the connect discovery goes on while time is left, stops when cancelled, and fails when it times out |
| QrPairing.QrService.ResumeConnectBrowse | src-server/qrPairingService.js:141-160 | a discovery result either finds the connect service and sends the connect command, or waits for the next try |
| QrPairing.QrService.ResumeConnect | src-server/qrPairingService.js:161-184 | the connect outcome gives success with `address:port` only when its output reports the connection, and an error otherwise |
| ClientState.Initial | src-client/state.js:3-57 | the page starts not running, without a socket or pending commands, and with the stream, pointer and size fields at their defaults |
| ClientState.ResetRestoresInitial | src-client/state.js:59-84 | a reset puts the stream, pointer and size fields back to their page-load values: size 0x0 and `Unknown`, every marker at -1, no mouse button held |
| ClientState.ResetKeeps | src-client/state.js:59-84 | a reset leaves the socket, the run flag, the selected device, the display mode, the control choice and the pending commands as they were |
| ClientState.ResetIdempotent | src-client/state.js:59-84 | resetting twice is resetting once |
| ClientState.StreamingStopped | src-client/messageHandlers.js:38-60 | when streaming stops the client is not running and its stream and pointer state are reset; the socket, the pending commands and the device selection are kept |
| ClientState.GlobalState.constructor | src-client/state.js:3-57 | the object starts in the page-load state |
| ClientState.GlobalState.ResetStreamRelatedState | src-client/state.js:59-84 | the fields change exactly as `Reset` describes |
| ClientState.GlobalState.StopVideoConverter | src-client/services/videoPlaybackService.js:77-99 | the converter and the source buffer are dropped and the size becomes 0x0; nothing else changes |
| ClientState.GlobalState.HandleStreamingStopped | src-client/messageHandlers.js:38-60 | the fields change exactly as `StreamingStopped` describes |
| Logger.TwoDigits | src-client/loggerService.js:7-9 | a two-digit field reads back as its number |
| Logger.TimeString | src-client/loggerService.js:7-9 | the time is `HH:MM:SS` |
| Logger.StampShape | src-client/loggerService.js:10 | an entry is `[HH:MM:SS] ` followed by the message |
| Logger.AppendedBound | src-client/loggerService.js:10-11 | the log never holds more than the limit |
| Logger.AppendedFifo | src-client/loggerService.js:10-11 | the new entry is last; below the limit nothing is dropped, and at the limit only the oldest entry is |
| Logger.Log.constructor | src-client/loggerService.js:4 | the log starts empty |
| Logger.Log.AppendLog | src-client/loggerService.js:6-13 | `appendLog` adds the stamped entry with its error flag as `Appended` describes and keeps the log within 509 entries |
| Logger.Log.UpdateStatus | src-client/loggerService.js:24-26 | `updateStatus` appends exactly one entry that is not an error |
| ClientMessages.SendWebSocketMessage | src-client/websocketService.js:127-140 | a message is sent exactly when the socket is open and sending does not throw, and the answer is true exactly then |
| ClientMessages.SendControlMessageToServer | src-client/websocketService.js:142-150 | a control buffer is sent, unchanged, exactly when the socket is open, control was enabled at start and sending does not throw |
| AdbClient.ConnectByIpCheck | src-client/services/adbClientService.js:8-19 | the trimmed address is accepted exactly when it has the `IP:PORT` form; an empty one asks for an address |
| AdbClient.CheckedAddressAccepted | src-client/services/adbClientService.js:15 | an address the client accepts is never refused with 400 by the server's `/connect-ip` |
| AdbClient.ConnectByIpOutcome | src-client/services/adbClientService.js:23-44 | the device list is refreshed exactly when the response is OK and reports success; the status shows the server's message, or "Connection error:" with the error |
| AdbClient.ConnectByIpEndToEnd | src-client/services/adbClientService.js:8-44 | for an accepted address the client refreshes its device list exactly when the server's connect command reports the connection |
| AdbClient.SendCommand | src-client/services/adbClientService.js:121-139 | without an open socket and a selected device the command is rejected and nothing changes; otherwise it is registered under its id before the message is sent, and a send failure removes it and rejects |
| AdbClient.Timeout | src-client/services/adbClientService.js:140-146 | a timeout rejects and removes the command only when it is still pending |
| AdbClient.SentThenTimedOut | src-client/services/adbClientService.js:127-146 | a command sent and timed out is rejected once, with its type in the message, and a second timeout does nothing |
| AdbClient.SendAdbCommandToServer | src-client/services/adbClientService.js:121-139 | the state changes, settles and sends exactly as `SendCommand` describes |
| AdbClient.CommandTimedOut | src-client/services/adbClientService.js:140-146 | the timer changes the table exactly as `Timeout` describes |
| AdbClient.CancelQr | src-client/services/adbClientService.js:103-119 | cancelling always leaves no QR process and no QR socket; it posts the cancellation only when a process was active, and closes the socket only when it was open |
| AdbClient.CancelQrIdempotent | src-client/services/adbClientService.js:103-119 | cancelling again changes nothing and posts and closes nothing |
| AdbClient.CancelQrPairingSession | src-client/services/adbClientService.js:103-119 | the state changes exactly as `CancelQr` describes |
| ControlMessages.Unpack | src-client/services/inputService.js:86-97 | reading a message back by its layout gives one value per field |
| ControlMessages.FieldRoundTrip | src-client/services/inputService.js:88-97 | each `DataView` big-endian write of a value that fits its field reads back as the value and takes the field's size |
| ControlMessages.PackLength | src-client/services/inputService.js:86 | a packed message is as long as its layout |
| ControlMessages.UnpackPack | src-client/services/inputService.js:86-97 | a message packed from values that fit their fields reads back as those values |
| ControlMessages.PackSnoc | src-client/services/inputService.js:383-391 | the running offset writes each field right after the previous one |
| ControlMessages.Serialize | src-client/services/inputService.js:86-97 | the sequential writes into a zeroed buffer give the packed message |
| ControlMessages.WriteField | src-client/services/inputService.js:384 | writing a field at the offset keeps the bytes before it |
| ControlMessages.TouchSize | src-client/services/inputService.js:86 | the touch layout is 32 bytes |
| ControlMessages.ScrollSize | src-client/services/inputService.js:381 | the scroll layout is 21 bytes |
| ControlMessages.TouchMessageRoundTrip | src-client/services/inputService.js:86-97 | a touch message is 32 bytes: type 2, the action, pointer id -1 as a 64-bit value, x and y as 32-bit signed values, width and height as 16-bit values, 0xFFFF, 0 and the buttons, all read back |
| ControlMessages.ScrollMessageRoundTrip | src-client/services/inputService.js:381-391 | a scroll message is 21 bytes: type 3, x, y, width, height, the two scroll amounts and the buttons, all read back |
| ControlMessages.BackMessageBytes | src-client/services/inputService.js:110-121 | the back messages are `[4, 0]` and `[4, 1]` |
| Input.BitRules | src-client/services/inputService.js:159-296 | setting a button flag sets only that flag, clearing it clears only that flag, and the mask becomes 0 exactly when no other flag was held |
| Input.SendMouse | src-client/services/inputService.js:82-101 | a touch message is sent exactly when the device size is known and control was enabled at start, and it carries the action, the buttons, the point and the size |
| Input.SendBack | src-client/services/inputService.js:106-122 | Back sends `[4, 0]` then `[4, 1]` exactly when running with control enabled, and nothing otherwise |
| Input.Released | src-client/services/inputService.js:218-219 | a released pointer holds no button and is not down |
| Input.UpFlag | src-client/services/inputService.js:282-288 | buttons 0, 1 and 2 map to the primary, tertiary and secondary flags |
| Input.Release | src-client/services/inputService.js:291-299 | a release is ignored unless its flag is held; then UP is sent with the mask still holding the flag, the flag is cleared, and the pointer stays down exactly while another flag is held |
| Input.MouseDown | src-client/services/inputService.js:226-267 | outside the stream or while inactive nothing happens; the right button sends Back and releases everything; left and middle add their flag and send DOWN with the new mask when the point is known |
| Input.MouseUp | src-client/services/inputService.js:273-300 | a release while not down is ignored; the failed guards release everything; otherwise the button's flag is released |
| Input.Move | src-client/services/inputService.js:306-315 | a move while down sends MOVE with the unchanged mask and records the point |
| Input.MouseLeave | src-client/services/inputService.js:321-331 | leaving with a button held sends UP at the last point and releases everything; otherwise nothing happens |
| Input.TouchStart | src-client/services/inputService.js:128-165 | a touch on the stream sets the primary flag, marks the pointer down and sends DOWN when the point is known |
| Input.TouchEnd | src-client/services/inputService.js:187-209 | the end of a touch releases the primary flag like a mouse release, or everything when the guards fail |
| Input.TouchCancel | src-client/services/inputService.js:215-220 | a cancelled touch leaves no button held, the pointer not down, and sends nothing |
| Input.ScrollAmount | src-client/services/inputService.js:367-379 | a scroll amount is 0 for no delta, -32767 for a positive delta and 32767 for a negative one |
| Input.Wheel | src-client/services/inputService.js:337-393 | a scroll message is sent exactly when active on the video with a known size, a point (the event's or a last one off the origin) and a delta on some axis, and it carries the point, the size, the two amounts and the mask |
| Input.ReleaseSendsPreClearMask | src-client/services/inputService.js:295-296 | the UP message sent by a release carries the mask from before the flag is cleared |
| Input.Clamp | src-client/services/inputService.js:70-71 | a coordinate is clamped to 0..the device size and kept when inside |
| Input.ScaledCoordinates | src-client/services/inputService.js:17-73 | a scaled point lies within the device size, and there is none without a view or a device size |
| Input.ScaledInsideSameAspect | src-client/services/inputService.js:48-66 | with the video's own aspect there are no bars, so every point maps |
| Input.ScaledNoneInLeftBar | src-client/services/inputService.js:53-56 | a point in the left bar of a wider view maps to nothing |
| Input.SendMouseEvent | src-client/services/inputService.js:82-101 | `sendMouseEvent` sends what `SendMouse` describes |
| Input.SendBackButton | src-client/services/inputService.js:106-122 | `sendBackButtonControlInternal` sends what `SendBack` describes |
| Input.HandleMouseDown | src-client/services/inputService.js:226-267 | the handler changes only the pointer state, as `MouseDown` describes, and sends its messages |
| Input.ReleaseFlag | src-client/services/inputService.js:291-299 | the release changes only the pointer state, as `Release` describes |
| Input.HandleMouseUp | src-client/services/inputService.js:273-300 | the handler changes only the pointer state, as `MouseUp` describes |
| Input.HandleMove | src-client/services/inputService.js:306-315 | the handler changes only the pointer state, as `Move` describes |
| Input.HandleMouseLeave | src-client/services/inputService.js:321-331 | the handler changes only the pointer state, as `MouseLeave` describes |
| Input.HandleTouchStart | src-client/services/inputService.js:128-165 | the handler changes only the pointer state, as `TouchStart` describes |
| Input.HandleTouchEnd | src-client/services/inputService.js:187-209 | the handler changes only the pointer state, as `TouchEnd` describes |
| Input.HandleTouchCancel | src-client/services/inputService.js:215-220 | the handler changes only the pointer state, as `TouchCancel` describes |
| Input.HandleWheel | src-client/services/inputService.js:337-393 | the handler sends what `Wheel` describes and changes nothing |
| Input.InputListeners.constructor | src-client/services/inputService.js:10 | no listener is recorded or attached at first |
| Input.InputListeners.BindEvent | src-client/services/inputService.js:454-460 | binding attaches the listener and appends it to its element's list, creating the list when needed |
| Input.InputListeners.Cleanup | src-client/services/inputService.js:438-445 | clean-up detaches every recorded listener and clears the table |
| Input.InputListeners.DetachOne | src-client/services/inputService.js:439-443 | each element's listeners are detached in turn |
| Input.InputListeners.Detach | src-client/services/inputService.js:440-442 | the listeners of one element are detached |
| Input.RecordedRemove | src-client/services/inputService.js:439-444 | the recorded bindings are those of one element plus those of the rest |
| Input.InitInputService | src-client/services/inputService.js:399-433 | initialisation binds the wheel handler on the stream area when there is one, and always the document's mouse-up handler |
| VideoPlayback.ShowVideoInfo | src-client/services/videoPlaybackService.js:35-56 | the size and its `WxH` text are recorded; placeholder hidden and video shown exactly when either side is positive; the aspect ratio is `W / H` when both are positive and `9 / 16` otherwise |
| VideoPlayback.ResolutionReadsBack | src-client/services/videoPlaybackService.js:38 | the resolution text reads back as the width, then `x` and the height |
| VideoPlayback.StopShowsPlaceholder | src-client/services/videoPlaybackService.js:98 | after stopping, the size is `0x0`, the placeholder shows and the aspect ratio is the default |
| VideoPlayback.HandleVideoInfo | src-client/services/videoPlaybackService.js:35-56 | `handleVideoInfo` changes the state and the page as `ShowVideoInfo` describes |
| VideoPlayback.ConverterFps | src-client/services/videoPlaybackService.js:64 | the frame rate is the selected number when it parses to a nonzero value, and 30 when it does not parse; it is never 0 |
| VideoPlayback.ConverterFpsOfRate | src-client/services/videoPlaybackService.js:64 | a positive rate from the list is used as it is |
| VideoPlayback.InitConverter | src-client/services/videoPlaybackService.js:59-75 | a converter exists, its source buffer is recorded, the size is reset to `0x0`, and nothing else changes |
| VideoPlayback.InitializeVideoConverter | src-client/services/videoPlaybackService.js:59-75 | `initializeVideoConverter` returns `ConverterFps` and changes the state as `InitConverter` describes |
| VideoPlayback.IFrameShape | src-client/services/videoPlaybackService.js:101-109 | a frame counts as an IDR frame exactly when it starts with a 3- or 4-byte start code followed by a byte of unit type 5 |
| VideoPlayback.OrZeroSmall | src-client/services/videoPlaybackService.js:143 | `end \| 0` of a media time below 2^31 is its whole part |
| VideoPlayback.CounterAlternates | src-client/services/videoPlaybackService.js:129-130 | with an interval of 2 the counter stays in range and reaches 0 on every other frame |
| VideoPlayback.WithMarks | src-client/services/videoPlaybackService.js:127-152 | writing the counter, source buffer and removal range back gives those values |
| VideoPlayback.Grow | src-client/services/videoPlaybackService.js:144-146 | a pending removal range keeps its start and grows its end to the larger one; without one the new range is taken |
| VideoPlayback.CheckMarksRules | src-client/services/videoPlaybackService.js:127-152 | Safari changes nothing; otherwise the counter steps, a source buffer once found is kept, and a clean-up is scheduled exactly on a counted IDR frame with enough buffered, a source buffer and a valid range, which it takes or merges; otherwise the range is unchanged |
| VideoPlayback.ScanFrame | src-client/services/videoPlaybackService.js:127-152 | the step-by-step checks give what `Scan` describes |
| VideoPlayback.CheckForIFrameAndCleanBuffer | src-client/services/videoPlaybackService.js:127-152 | `checkForIFrameAndCleanBuffer` changes the state as `CheckFrame` describes |
| VideoPlayback.Clean | src-client/services/videoPlaybackService.js:111-125 | the pending range is removed and the listener re-armed exactly when there is an idle source buffer, a valid range and no throw; otherwise the range is reset to -1 |
| VideoPlayback.ScheduledRangeRemoved | src-client/services/videoPlaybackService.js:144-149 | a range scheduled by a frame check is the one an idle source buffer then removes |
| VideoPlayback.CleanAfterReset | src-client/services/videoPlaybackService.js:111-115 | after a reset, the next clean-up removes nothing and changes nothing |
| VideoPlayback.CleanSourceBuffer | src-client/services/videoPlaybackService.js:111-125 | `cleanSourceBuffer` changes the state as `Clean` describes |
| VideoPlayback.SampledBound | src-client/services/videoPlaybackService.js:157-158 | the input-byte samples keep at most 201 entries, dropping the oldest past 200, and end with the new sample |
| VideoPlayback.VideoData | src-client/services/videoPlaybackService.js:154-161 | data is fed exactly when there is a converter; then a sample is recorded and the frame check runs; otherwise nothing changes |
| VideoPlayback.VideoDataBound | src-client/services/videoPlaybackService.js:157-158 | the sample list stays bounded and ends with this payload's size |
| VideoPlayback.HandleVideoData | src-client/services/videoPlaybackService.js:154-161 | `handleVideoData` changes the state as `VideoData` describes |
| VideoPlayback.ResolutionUpdate | src-client/services/videoPlaybackService.js:241-246 | a running stream whose size changed takes the new size and logs `Resolution changed to WxH`; otherwise nothing changes |
| VideoPlayback.ResolutionUpdateIdempotent | src-client/services/videoPlaybackService.js:241-246 | repeating the same size update changes nothing and logs nothing |
| VideoPlayback.UpdateVideoResolutionInStream | src-client/services/videoPlaybackService.js:241-246 | `updateVideoResolutionInStream` changes the state as `ResolutionUpdate` describes |
| Sidebar.BitrateRules | src-client/ui/sidebarControls.js:13-14 | a positive custom bitrate wins and is scaled from Mbps, otherwise the selection is, and an unparsable selection gives none; any bitrate is a whole number of Mbps |
| Sidebar.StreamSettingsRules | src-client/ui/sidebarControls.js:10-26 | the settings carry the bitrate rule, the trimmed custom resolution and DPI when not empty and the selections otherwise, video on, and the current display mode |
| Sidebar.NewDisplayIds | src-client/ui/sidebarControls.js:67 | the new display ids are exactly those in the second list and not in the first |
| Sidebar.NewDisplayIdFirst | src-client/ui/sidebarControls.js:67-69 | the lookup fails exactly when no display is new, and otherwise gives the first new display of the second list |
| Sidebar.Flip | src-client/ui/sidebarControls.js:78-82 | a size is left as it is exactly when it is `reset` or has no `x` |
| Sidebar.TrimDigits | src-client/ui/sidebarControls.js:23-24 | trimming a run of digits changes nothing |
| Sidebar.JsNumberOfNat | src-client/ui/sidebarControls.js:79 | `Number` of a decimal numeral gives its value |
| Sidebar.NoSeparatorInNumber | src-client/ui/sidebarControls.js:78-79 | a numeral has no `x`, so `WxH` splits into its two numbers |
| Sidebar.FlipNumbers | src-client/ui/sidebarControls.js:78-82 | the native-taskbar flip turns `WxH` into `HxW` and keeps the original height |
| Sidebar.FlipSwaps | src-client/ui/sidebarControls.js:78-82 | flipping twice gives the original size |
| Sidebar.MagicNearest | src-client/ui/sidebarControls.js:86-87 | the magic DPI is the rounding of height / 600 * 160, so 288 for a height of 1080 |
| Sidebar.ClampDpiRules | src-client/ui/sidebarControls.js:83-93 | the DPI changes only when a size was flipped and the DPI parses above the magic DPI, and then becomes the magic DPI |
| Sidebar.WmRequests | src-client/ui/sidebarControls.js:94-101 | the WM size and density are set exactly when they are not `reset` |
| Sidebar.OverlayPrestartRules | src-client/ui/sidebarControls.js:51-71 | overlay mode without a set size and DPI fails before any command; a successful overlay start lists the displays, sets the overlay, lists them again, and starts on a display that is new |
| Sidebar.NativePrestartRules | src-client/ui/sidebarControls.js:72-105 | a native-taskbar start sets the flipped size and clamped DPI that are not `reset` and starts with them |
| Sidebar.StartStreamingRules | src-client/ui/sidebarControls.js:28-112 | a start goes ahead exactly when a device is selected, nothing runs and the socket is open; it marks the stream running with the form's control setting, its `start` request names the device, other modes send the form's settings, and a failed ADB step leaves a stream that the stop cleans up in overlay and native-taskbar mode |
| Sidebar.StopRules | src-client/ui/sidebarControls.js:114-136 | a stop that acts leaves the client stopped with its stream reset; the disconnect goes out only on an open socket when asked for; the mode's clean-up command is sent exactly when a stream ran on a selected device in overlay or native-taskbar mode |
| Sidebar.StopStreamingAndCleanup | src-client/ui/sidebarControls.js:114-136 | `stopStreamingAndCleanup` changes the state and sends as `Stop` describes |
| Sidebar.DeviceChoices | src-client/ui/sidebarControls.js:161-170 | one option per device, in order, each labelled from the device |
| Sidebar.FirstReady | src-client/ui/sidebarControls.js:177 | the first device of type `device`, and none exactly when there is none |
| Sidebar.SelectionRules | src-client/ui/sidebarControls.js:150-185 | no devices select nothing; a ready previous choice is kept; anything selected is ready; otherwise the first ready device is chosen, and nothing only when none is ready |
| Sidebar.DeviceSelect.constructor | src-client/ui/sidebarControls.js:149 | the list starts with no options and no value; its `disabled` flag is the `DeviceList` entry of the `Panel` |
| Sidebar.BuildChoices | src-client/ui/sidebarControls.js:161-170 | the loop builds `DeviceChoices` |
| Sidebar.IsReady | src-client/ui/sidebarControls.js:173 | the scan finds exactly the ready devices |
| Sidebar.FindReady | src-client/ui/sidebarControls.js:177 | the scan returns `FirstReady` |
| Sidebar.PopulateDeviceSelect | src-client/ui/sidebarControls.js:148-188 | the devices are stored, the selection is `Selection`, the list shows the choices and the selection; the closing `updateDisplayOptionsState()` then sets every control as `Enabled` says for the new state, so the list ends disabled exactly while streaming, Refresh exactly while streaming or without an open socket, and Start whenever the list is empty |
| Sidebar.ReplaceList | src-client/ui/sidebarControls.js:149-186 | before the closing refresh, the devices, selection and options are replaced and the list is disabled exactly when it is empty, nothing else in the panel changing |
| Sidebar.ChooseDevice | src-client/ui/sidebarControls.js:172-185 | the choice is `Selection` |
| Sidebar.RequestAdbDevices | src-client/ui/sidebarControls.js:138-146 | on an open socket the device list is asked for, Refresh is disabled and nothing else changes; otherwise the list is emptied, nothing is selected, every control is set from the new state and then Refresh is enabled |
| Sidebar.GroupsFollowRules | src-client/ui/sidebarControls.js:214-226 | each control group is enabled as the enablement rule for its controls says |
| Sidebar.GroupsCover | src-client/ui/sidebarControls.js:214-226 | every option control belongs to a group |
| Sidebar.StreamDisableAgrees | src-client/ui/sidebarControls.js:242-249 | the controls disabled while streaming are disabled by the rule too |
| Sidebar.EnablementRules | src-client/ui/sidebarControls.js:204-260 | while streaming only Stop, Refresh and the device list can be enabled; turn-screen-off and power-off need control; DeX and default mode lock resolution and DPI; DeX and native taskbar lock rotation; Start is enabled exactly when idle with a device selected |
| Sidebar.Panel.constructor | src-client/ui/sidebarControls.js:204 | no control is marked yet |
| Sidebar.DisableGroup | src-client/ui/sidebarControls.js:228-234 | a group's controls are disabled exactly when the group is not enabled, and other controls keep their state |
| Sidebar.UpdateGroups | src-client/ui/sidebarControls.js:228-234 | every option control is disabled exactly when the rule does not enable it |
| Sidebar.ListFlags | src-client/ui/sidebarControls.js:236-239 | under the enablement rule the device list is disabled exactly while streaming, Refresh exactly while streaming or without an open socket, and Start exactly while streaming or with no device selected |
| Sidebar.UpdateDisplayOptionsState | src-client/ui/sidebarControls.js:204-260 | every control ends disabled exactly when the enablement rule does not enable it |
| Sidebar.UpdateDisplayOptionsOnStreamStop | src-client/ui/sidebarControls.js:270-280 | after a stop every control, Stop, the list, Refresh and Start included, is disabled exactly as `Enabled` says for the state |
| WsClient.Connect | src-client/websocketService.js:10-18 | a socket is created, connecting, exactly when none is open or connecting; otherwise nothing changes and an open socket refreshes the device list |
| WsClient.ConnectOnce | src-client/websocketService.js:10-16 | a second connect creates nothing and changes nothing |
| WsClient.CloseRequested | src-client/websocketService.js:127-132 | closing leaves a socket closing or closed, keeps one already closing or closed, and does nothing without a socket |
| WsClient.ConnectAfterClose | src-client/websocketService.js:10-17 | after a close is asked for, a connect creates a new socket |
| WsClient.InitializeWebSocket | src-client/websocketService.js:10-18 | `initializeWebSocket` changes the state as `Connect` describes; when it refreshes it asks for the devices and disables Refresh, and otherwise leaves the panel as it was |
| WsClient.OnOpen | src-client/websocketService.js:20-24 | on open the socket is open, the device list is asked for, and Refresh ends disabled until the answer (enabled at :22, disabled again at sidebarControls.js:141) |
| WsClient.CloseWebSocket | src-client/websocketService.js:127-132 | `closeWebSocket` changes the socket as `CloseRequested` describes and nothing else |
| WsClient.AnsweredBy | src-client/websocketService.js:30-32 | a message answers a command exactly when its id is waiting and its type is the command's type followed by `Response` |
| WsClient.ReplyRules | src-client/websocketService.js:30-41 | a reply settles its command exactly when it answers it: success resolves, failure rejects with its error or `ADB command T failed.`, the entry is dropped and nothing else changes; other messages leave the table alone |
| WsClient.DeviceListRules | src-client/websocketService.js:43-48 | a device list that answers no command fills the list (empty on failure) and selects as `Sidebar.Selection` says, changing nothing else |
| WsClient.SettlesOnce | src-client/websocketService.js:30-39 | a command settles at most once: the same reply again, or a time-out after it, settles nothing |
| WsClient.SentThenAnswered | src-client/websocketService.js:30-39 | a sent command whose reply carries its id and type is settled by it and leaves the table |
| WsClient.WrongTypeNotAnswer | src-client/websocketService.js:30-41 | a reply of another type settles nothing and the command keeps waiting |
| WsClient.OnTextMessage | src-client/websocketService.js:26-85 | the handler changes the state as `OnText` describes; after a device list (Refresh enabled, the list shown) and after a stop (the stream ended and the panel refreshed at src-client/messageHandlers.js:56-60) every control is set from the new state; a routed reply and any other message leave the panel as it was |
| WsClient.RouteBinaryFrames | src-client/websocketService.js:86-97 | a frame's first byte routes its payload: video needs a running stream and a converter, audio a running stream and the audio checkbox; an empty frame is dropped |
| WsClient.RouteBinaryPayload | src-client/websocketService.js:86-97 | a routed frame is its type byte followed by the payload passed on |
| WsClient.OnBinaryMessage | src-client/websocketService.js:86-97 | binary frames route as `RouteBinary` says, and only video data changes the state, as `VideoPlayback.VideoData` describes |
| WsClient.Ended | src-client/websocketService.js:100-111 | after a close or an error nothing runs, there is no socket, no devices, no selection and no waiting commands; a running stream is reset |
| WsClient.NothingSettlesAfterClose | src-client/websocketService.js:100-111 | after the connection ends no reply or time-out settles anything, and a connect creates a socket |
| WsClient.RejectOneMore | src-client/websocketService.js:109 | rejecting one more waiting command extends the rejections by it |
| WsClient.IdsListed | src-client/websocketService.js:109 | every rejected command's id is among the ids |
| WsClient.RejectKeys | src-client/websocketService.js:109 | every waiting command is rejected once with the same reason |
| WsClient.RejectAll | src-client/websocketService.js:109-110 | all waiting commands are rejected and the table is cleared |
| WsClient.OnConnectionEnd | src-client/websocketService.js:100-124 | `onclose` and `onerror` leave the state `Ended`, an empty list, every control set from the stopped state (so the list enabled, Refresh and Start disabled), and every waiting command rejected with the close or error reason |
| AppDrawer.TargetRules | src-client/ui/appDrawer.js:6-10 | the page shown is 1 for no or a non-positive page and when there are no pages, at most the last page when there are pages, the page itself otherwise, and showing it again keeps it |
| AppDrawer.ShowPage | src-client/ui/appDrawer.js:6-27 | `showPage` sets the current page to the target and marks its dot |
| AppDrawer.OpenAppDrawer | src-client/ui/appDrawer.js:29-32 | opening shows the current page, or page 1 when there is none |
| AppDrawer.Slice | src-client/ui/appDrawer.js:71 | `slice` gives the part between the bounds and nothing when they are empty or past the end |
| AppDrawer.Pages | src-client/ui/appDrawer.js:65-71 | there is one page per page count |
| AppDrawer.PagesCover | src-client/ui/appDrawer.js:65-71 | the pages hold the first pages-times-size apps in order, each once |
| AppDrawer.Render | src-client/ui/appDrawer.js:40-113 | the apps are stored (none for a missing list); one page holds them all, or there are no pages for no apps |
| AppDrawer.RenderRules | src-client/ui/appDrawer.js:40-113 | the pages hold exactly the stored apps, their count is the page count, no dots are shown and page 1 is current |
| AppDrawer.BuildPages | src-client/ui/appDrawer.js:65-89 | the loop builds `Pages` |
| AppDrawer.PlanRender | src-client/ui/appDrawer.js:45-111 | the computed apps, page count, size, pages, dots and page are those of the rendering |
| AppDrawer.RenderAppDrawer | src-client/ui/appDrawer.js:40-113 | `renderAppDrawer` changes the state as `Render` describes |
| LegacyClient.LegacyState.constructor | src/main.js:55-88 | the page starts with no socket, nothing running, control off, the default stream and pointer state and no size |
| LegacyClient.NewLog | src/main.js:91-105 | the log starts empty with a limit of 50 lines |
| LegacyClient.SendMouseAgrees | src/main.js:550-568 | the legacy `sendMouseEvent` sends the same touch message as the modular client's for the same size and control setting |
| LegacyClient.MouseDownRules | src/main.js:570-591 | inactive, nothing happens; otherwise the pointer is down, an unknown button changes no flag, and a known one sets its flag alone and sends DOWN with the new mask when the point is known |
| LegacyClient.MouseUpRules | src/main.js:593-621 | a held button's release clears its flag, keeps the pointer down exactly while a flag remains and sends UP with the mask from before, at the event's point or the last one; otherwise nothing happens |
| LegacyClient.MouseLeaveRules | src/main.js:636-645 | leaving with a button held sends UP at the last point and releases everything |
| LegacyClient.ClickRoundTrip | src/main.js:570-621 | a press and release of one button send DOWN and UP with that button's flag alone and leave the pointer released at the press point |
| LegacyClient.SendMouseEvent | src/main.js:550-568 | `sendMouseEvent` returns what `SendMouse` describes |
| LegacyClient.ButtonFlag | src/main.js:577-581 | buttons 0, 1 and 2 map to the primary, tertiary and secondary flags |
| LegacyClient.HandleMouseDown | src/main.js:570-591 | the handler changes only the pointer state, as `MouseDown` describes |
| LegacyClient.HandleMouseUp | src/main.js:593-621 | the handler changes only the pointer state, as `MouseUp` describes |
| LegacyClient.HandleMouseMove | src/main.js:623-634 | the handler changes only the pointer state, as `MouseMove` describes |
| LegacyClient.HandleMouseLeave | src/main.js:636-645 | the handler changes only the pointer state, as `MouseLeave` describes |
| LegacyClient.IFrameShape | src/main.js:170-175 | a frame counts as an IDR frame when the byte after a 4-byte start code, else after a 3-byte one, else its first byte has unit type 5 |
| LegacyClient.IFrameAgreesWithModular | src/main.js:170-175 | on frames with a start code the legacy and modular tests agree; without one the legacy test accepts the single byte 5 and the modular one does not |
| LegacyClient.Flip | src/main.js:981-1003 | a running stream with a known size swaps width and height and its text; otherwise nothing changes |
| LegacyClient.FlipTwice | src/main.js:986-996 | the aspect ratio becomes `H / W`, and flipping twice restores the size |
| LegacyClient.FlipOrientation | src/main.js:981-1003 | the click handler changes the state as `Flip` describes |
| LegacyClient.Start | src/main.js:647-677 | a start happens exactly when nothing runs and no socket is open; it resets the stream state, marks it running with the control setting and opens a connecting socket |
| LegacyClient.StartOnce | src/main.js:647-651 | a second start is refused and changes nothing |
| LegacyClient.StartStreaming | src/main.js:647-677 | `startStreaming` changes the state as `Start` describes |
| Launcher.WordPrefixMeaning | src-server/adbService.js:210 | `[^\s]+` takes the longest run of non-space characters at the start |
| Launcher.TagAt | src-server/adbService.js:212 | the tag search finds the first place at or after the start where the tag follows the key, and none when there is none |
| Launcher.LabelAfterIsRegex | src-server/adbService.js:212-216 | the label lookup is the lazy regular-expression match over the lower-cased block |
| Launcher.FirstHeaderIsRegex | src-server/adbService.js:212-216 | starting at the first header gives the match of the whole regular expression |
| Launcher.SkipToHeader | src-server/adbService.js:212 | a match cannot start before the first header |
| Launcher.NoStartFrom | src-server/adbService.js:212 | without a header or a label tag after it, the expression does not match |
| Launcher.LabelSegment | src-server/adbService.js:218-220 | the label comes from the last segment, or the one before it when the last is generic and there is another |
| Launcher.SpaceCaps | src-server/adbService.js:221 | every capital in the result follows a space |
| Launcher.SpaceCapsOnlySpaces | src-server/adbService.js:221 | spacing capitals adds only spaces |
| Launcher.Separate | src-server/adbService.js:221 | dashes, underscores and dots become spaces and everything else is kept |
| Launcher.TitleCase | src-server/adbService.js:221 | capitalising word starts keeps the length |
| Launcher.UpperCharKeeps | src-server/adbService.js:221 | upper-casing a character keeps its lower case and its class |
| Launcher.TitleCaseStarts | src-server/adbService.js:221 | a character is upper-cased exactly when it starts a word, and word starts stay the same |
| Launcher.TitleCaseMeaning | src-server/adbService.js:221 | title case changes only the case, and no word starts with a lower-case letter |
| Launcher.TitleCaseIdempotent | src-server/adbService.js:221 | title case applied twice is title case |
| Launcher.DeriveLabelClean | src-server/adbService.js:218-221 | a derived label has no separator and no space at either end |
| Launcher.CleanOf | src-server/adbService.js:221 | the clean-up of any text has no separator and no space at either end |
| Launcher.Letter | src-server/adbService.js:226 | the initial is the label's first character upper-cased (ASCII letters only), one character, and none for an empty label |
| Launcher.BlockApps | src-server/adbService.js:209-227 | a block gives at most one app, and only with a package and a label, its initial taken from the label |
| Launcher.AppsWellFormed | src-server/adbService.js:208-228 | no more apps than blocks, each with a package, a label and its initial |
| Launcher.CollectApps | src-server/adbService.js:205-228 | the loop collects the apps of the blocks in order |
| Launcher.AppsStep | src-server/adbService.js:208-228 | one block more adds its apps at the end |
| Launcher.InsertPermutes | src-server/adbService.js:229 | inserting adds the app and removes none |
| Launcher.InsertLength | src-server/adbService.js:229 | inserting adds one entry |
| Launcher.InsertSorted | src-server/adbService.js:229 | inserting into a sorted list keeps it sorted |
| Launcher.SortAppsCorrect | src-server/adbService.js:229 | sorting by label with an antisymmetric comparison gives a sorted permutation |
| Launcher.LauncherApps | src-server/adbService.js:200-234 | the result is the sorted apps of the blocks after `Activity #`, and a failure is reported as `Failed to get launcher apps: ` and its message |
| Bytes.JsRem | src-client/services/videoPlaybackService.js:129 | JavaScript's `%` keeps the dividend's sign: it agrees with the Euclidean remainder on non-negative values and is at most 0 on negative ones |
| Bytes.BERoundTrip | src-client/services/inputService.js:88-97 | a big-endian write of n bytes reads back as the value modulo 256^n |
| Bytes.SignedRoundTrip | src-client/services/inputService.js:89-91 | a signed value that fits its width reads back unchanged from its two's-complement bytes |
| Bytes.ReadU32 | src-server/scrcpySession.js:152-154 | `readUInt32BE` gives a value below 2^32 |
| Text.JoinSplit | src-server/adbService.js:115 | joining the pieces of `split(c)` with `c` gives the text back |
| Text.SplitJoin | src-server/adbService.js:115 | splitting pieces without `c` that were joined by `c` gives the pieces back |
| Text.ParseIntOfNat | src-server/adbService.js:119 | `parseInt` of a decimal numeral gives its value |

## Left out

- Subprocesses, ADB, scrcpy, mDNS and sockets are not modelled: their output, exit codes, discovered records and incoming byte chunks are parameters.
- Timers, sleeps, worker threads and the Python background thread are left out; the 15-second command timeout is a separate event (`AdbClient.Timeout`), and interleavings of asynchronous steps are events of their own only in the QR workflow.
- Randomness (`nanoid`, `crypto.randomBytes`, the command id) is a parameter.
- The DOM beyond the disabled flags, select options and page counters the rules set, the CSS classes and the `updateLabelVisualState` styling are left out.
- Floating point is left out: `checkForBadState`, frame-rate statistics, `updateVideoBorder`, the battery fill, the bundled `readSPS` sample aspect ratio and the audio player; media times and element sizes are exact reals.
- `connect_device` of server.py (lines 140-147) only relays `adb connect` output to the caller and is not modelled.
- The `readBoolean`, `readUByte`, `readUShort` and `readUInt` wrappers of the bundled `BitStream` are single calls of `getBits` and are not modelled apart from it.
- `H264BitStream`: Exp-Golomb prefixes of 32 or more zeros are not modelled; the reader's JavaScript shifts lose meaning there.
- `NaluStreamBuffer`: `subarray` views are modelled as copies, so aliasing between a unit and the buffer it came from is not captured.
- `Mp4`: only `box` and `trun` are modelled; the other box types, the init segment and `moov` are left out.
- Text.Trim: strips only space, tab, LF and CR; the other characters JavaScript's `trim` and the regular expressions' `\s` remove or match (VT, FF, NBSP, BOM, U+1680, U+2000-U+200A, U+2028, U+2029, U+202F, U+205F, U+3000), and the further ones Python's `strip` removes, are kept. JavaScript's number-to-string beyond non-negative integers is not modelled.
- The device name's UTF-8 decoding is not modelled: the name is kept as the bytes before the first zero.
- The modular client's `messageHandlers.js` is modelled only in `handleStreamingStopped`; the other message types the WebSocket handler routes there (device name, video and audio info, resolution change, battery, volume, Wi-Fi, navigation, launcher apps) are left out.
- The single-file client's WebSocket handlers after `onopen` and its `stopStreaming` are not modelled; only its start guard and reset are.
- The launcher-apps request that the modular `handleStart` sends after a start (src-server/websocketHandlers.js:31-36) is left out.
- The navigation, Wi-Fi, battery, `launchApp`, `getAdbDevices` and `disconnect` handlers of src-server/websocketHandlers.js are thin relays to ADB or the session table and are not modelled.
- The battery polling interval and the removal of the reverse tunnel at session end are left out.
- The volume functions of server.js (lines 266-450) behave as the copies in src-server/adbService.js and src-server/websocketHandlers.js that the model covers.
- Launcher.Letter: upper-cases ASCII letters only (`UpperChar`), while `charAt(0).toUpperCase()` maps every Unicode letter: a label starting with 'é' gets the initial 'É' in the source and 'é' here, and one starting with 'ß' gets the two characters "SS", so the source's initial is not always one character as `|r| <= 1` states; `Launcher.BlockApps` and `Launcher.LauncherApps` carry the same difference.
- Launcher.SortAppsCorrect: `localeCompare` is a parameter `cmp`; the sort is proved correct for any antisymmetric comparison rather than for the locale's collation.
- Input.ScaledCoordinates: sizes and positions are exact reals rather than IEEE doubles; the contract states the clamp and the cases without a view or a device size, and the letterbox cases only through `Input.ScaledNoneInLeftBar` and `Input.ScaledInsideSameAspect`.
- BitReader.UEDecodes: stated for code numbers below 2^31 - 1 (at most 30 leading zeros); the 31-zero case, where JavaScript's `1 << 31` is negative, is in `BitReader.ReadUE` but no lemma states its result.
- AdbService.Share: the source computes `Math.round((percentage / 100) * max)` on IEEE doubles, so where the exact value is a half the product is often already rounded below it; the model rounds the exact rational half up and can give one more (58% of 25 and 29% of 50: 14 in the source, 15 here).
- AdbService.RoundDiv: rounds an exact quotient half up, not a double; see `AdbService.Share`.
- AdbService.VolumeSetting: the level sent is `AdbService.Share`'s, so it can differ by one from the source's where the exact share is a half.
- AdbService.VolumeSession.SetVolume: the level comes from `AdbService.Share`, with the same difference at halves.
- AdbService.SetMediaVolume: the level comes from `AdbService.Share`, with the same difference at halves.
- WsHandlers.Percentage: the source computes `Math.round((current / max) * 100)` on doubles; the model rounds the exact rational half up and can give one more where the exact value is a half (23 of 40: 57 in the source, 58 here).
- WsHandlers.HandleGetVolume: answers `WsHandlers.Percentage`, with the same difference at halves.
- WsHandlers.SetThenGet: stated for the exact roundings of `AdbService.Share` and `WsHandlers.Percentage`, not the double ones.
- DeviceHelper.GetDynamicDisplayId: when more than one display id is new, the model takes the first new id in listing order, while `list(set(updated) - set(initial))[0]` follows CPython's set iteration order (hash slots for small ints): with `[0]` before and `[0, 5, 2]` after, the source picks 2 and the model 5, and `DeviceHelper.Helper.StartScrcpy` launches on display 5. `DeviceHelper.NewDisplayId`'s contract promises only that the id is new, which both choices meet.
- DeviceHelper.RunWithReset: whether `subprocess.Popen(cmd)` raises is the parameter `spawned`; the causes (scrcpy missing, or a flag or option from the request that is not a string, since server.py:196-201 append the JSON values unchecked) are not modelled, as the command is a `seq<string>`. The reply "Scrcpy Desktop is running!" is sent either way, and after a failed spawn the overlay set on the overlay path stays on the device.
- WsHandlers.Dispatch: which JSON texts parse, and what the action of a message without one is, are the parameter `parsed`; the values the three inherited functions that return normally (`constructor`, `isPrototypeOf`, `toString`) compute are dropped, since nothing is sent for them.
- QrPairing.InitiateRule: states the route when no other request runs during its awaited adb check; the interleaved case is `QrPairing.InitiateResumes`, shown by `QrPairing.ConcurrentInitiates`.
- QrPairing.QrService.Initiate: runs the busy check and the rest of the route in one call; `QrPairing.QrService.ResumeInitiate` is the part after the await, which other requests can precede.
- QrPairing.CancelledNeverSucceeds: holds only while no new session is started; a new start clears `isCancelled`, and `QrPairing.CancelledRunRevived` shows the cancelled run then succeeding.
- Sidebar.Flip: `Number` is modelled only for blank text and decimal digit strings (`Sidebar.JsNumber`); signs, fractions, exponents and `0x`, `0o`, `0b` prefixes become NaN, so "1.5x2" flips to "2xNaN" here and to "2x1.5" in the source.
- Sidebar.JsNumber: see `Sidebar.Flip`.
- Sidebar.BitrateRules: `parseInt` without a radix also reads a `0x` prefix as hexadecimal (so a custom bitrate "0x10" is 16 Mbps in the source); `Text.ParseInt` reads only decimal digits, so here that input falls back to the selection.
- Text.ParseInt: decimal only; the radix-less calls of the source also accept a `0x` prefix.
- Smaller omissions: Python's `\d` in server.py also matches non-ASCII digits, while `Text.IsDigit` is ASCII only; the `ro.product.model` reply of `detect_device` is not modelled; the `typeof VideoConverter` guard of the video converter set-up is left out; `AppDrawer.OpenAppDrawer` does not model the panel's `openPanel` call; the launcher entries' `title` field is the source's `label`; `Input.InitInputService` states only the wheel and document mouse-up bindings.

## Findings

| source | as written | input that shows it | evidently intended | confidence | as-written member | corrected member |
|---|---|---|---|---|---|---|
| src-server/scrcpySession.js:194-199 | a metadata pass that identifies nothing, in a session that expects no control socket, returns `dynBuffer.length > 0`, so `processSingleSocket` runs the same pass again with nothing changed | a video-only session whose socket awaits its codec header with 1 byte buffered (`Demux.PartialVideoHeader`) | stop and wait for more data | not executed | Demux.PartialHeaderSpins | Demux.MetadataStep |
| server.js:1281-1291 | the monolithic server's copy sets `keepProcessing = dynBuffer.length > 0` in the same case, with the same endless loop | the same session (`Demux.PartialVideoHeader`) | stop and wait for more data | not executed | Demux.PartialHeaderSpins | Demux.MetadataStep |
