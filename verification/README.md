# RePhone firmware: computing parts, modelled and proved in Dafny

The firmware runs Lua on a small ARM board. Most of it hands arguments to a closed SDK; the parts
below compute something, and each of them is modelled here together with what it is for.

| files | what they model |
|---|---|
| `OneWire`, `OneWireMaster` | the search for 64-bit device numbers on a 1-Wire bus: a set of devices whose answers are ANDed, and the loop that walks their binary trie with three variables kept between calls |
| `Crc`, `CrcCode`, `Crc8` | the two CRC-16 routines and the two CRC-8 routines, as division of polynomials over two elements |
| `YmodemPacket`, `YmodemProtocol`, `YmodemSafety`, `YmodemCompletion`, `YmodemResend`, `YmodemCount`, `YmodemBudget`, `YmodemMost`, `YmodemLastPacket`, `YmodemReturn`, `YmodemWire`, `YmodemCode`, `YmodemReceive`, `Bytes` | YMODEM file transfer: packets as bytes, sender and receiver as state machines over links that lose and damage, and the two functions with their loops |
| `StrBuf`, `Utf8`, `JsonLexer`, `JsonGrammar`, `JsonEncode`, `JsonText`, `JsonRoundTrip`, `JsonEncoder`, `JsonDecoder` | CJSON over string buffers: growth and unchecked appends, `\u` escapes, tokens, the grammar, texts byte by byte, the encoder, and the round trip |
| `Sha2`, `Sha2Transform`, `Sha2Count`, `Sha2Stream`, `Sha2Words`, `Sha256Vector`, `Sha512Vector` | SHA-256, SHA-384 and SHA-512, and the published digests of "abc" |
| `BlockHash`, `Sha1`, `Sha1Code`, `Sha1Pieces`, `Sha1Vector`, `Md5`, `Md5Vector` | SHA-1, which overwrites what it hashes, and MD5, with their published digests of "abc" |
| `Struct`, `StructPack`, `StructBytes`, `StructCode` | `struct.pack`, `struct.unpack` and `struct.size` |
| `Options` | a value that may be missing |
| `RingBuffer`, `Watchdog` | the receive buffer between interrupt and Lua thread, and the watchdog handshake between interrupt, main thread and Lua thread |

Specifications are functions and predicates; the source's loops and buffers are methods and classes
that are proved against them, so that what is proved about a specification holds of the loop.
The SHA-256 and SHA-512 routines are written alike in the source and are one text here, over the word
operations; `Sha2Words` gives the two sets of operations. Bytes are 8-bit vectors, except in the
JSON and struct modules, where the arithmetic of masks and shifts on separate bit fields is written
with numbers from 0 to 255. Lua values are datatypes, the Lua stack is gone, and an error that the
source throws is an error result.

Where the code does something else than its comments say, the model follows the code:

* `common/ymodem.c:475` promises that a block is sent again after a NAK, ten times at most. There is no
  such count. What bounds the sends of the file name and of a block is how many replies the receiver gives
  before it gives up: 94 at most (`SendsAreBounded`), and for every block there is a run with 94
  (`BoundIsReached`). The end mark can be sent again without any limit (`EndMarkSentWithoutLimit`), since
  the receiver acknowledges each without counting an error; the empty packet behind it goes out at most 49
  times (`LastPacketIsBounded`). And the receiver answers a damaged block with `C`: as long as none of its
  replies is damaged into a NAK, there never is one (`RunStaysInStep`). A frame that is lost or damaged is
  sent again if and only if the sender reads a NAK; otherwise the sender waits on or gives up with 90 or 98,
  and the receiver's file stays as it is (`LostFrameEndsTransfer`). With a reply damaged into a NAK, the
  transfer can still succeed (`ForgedNakRepairs`).
* An empty file and one above the receiver's limit are sent, but no run ends in success
  (`TransferSucceedsIff`).
* The receiver reads the size in the first packet with a counter that never moves and with a buffer that is
  full after sixteen characters: `ReadSize` says exactly when it stays inside its arrays.
* `Lua/main.c:123` wants `_reset_wdg` to be called from the main thread only, but
  `Lua/lua/lvm.c:445-446` calls it from the Lua thread at every instruction, and `Lua/retarget.c:101-115`
  while it waits for characters. When both threads are inside, one request can reset the timer twice
  (`TwoResetsForOneRequest`); `AlwaysCountedIff` says exactly which runs keep the count. The limit of 145 requests then allows 290 resets, which is tight and above the 149 that
  `Lua/main.c:129` says the hardware takes. It is then not enough for the 13001-tick time-out that each
  request is answered in time (`HeldUpThreadMissesReset`); both threads have to be outside again in time
  as well (`ResetInTime`).
* The 1-Wire search reports nothing at all when one device has the family byte 0
  (`ZeroFamilyStopsSearch`).
* `json_decode` reads a C string: whatever stands behind a NUL is accepted (`NulHidesTheRest`).
* `SHA1Transform` works in the block that it is given, and `SHA1HANDSOFF` is not defined: an update
  overwrites all of its Lua string but the bytes that fill up the first block and the last bytes that
  fill none. A string that is given twice can be another one the second time (`ReusedStringIsSpoilt`);
  the message hashed is the strings as they were if and only if no update spoils a string that is used
  again (`FedIsJoinedIff`). `len << 3` loses bits from 2^29 bytes on (`CountStaysRightIff`).
* `struct.size` passes over letters that are no option (`SizeIgnoresLetters`); apart from them it takes
  exactly the formats of fixed size that `pack` and `unpack` take (`SizeAgreesWithPackIff`).
* `struct.pack` takes a string with a NUL inside for option `s`, and `unpack` then never gives the
  arguments back (`UnpackUndoesPack`).

Number text in JSON is abstract: `JsonLexer.Codec` stands for snprintf and strtod, and
`JsonLexer.GoodCodec` says what is assumed of it, with `JsonRoundTrip.DigitsAreGood` as a small library
that meets the assumptions. A number need not survive its text; `Faithful` asks it of each number.

## Model

| member | source | states |
|---|---|---|
| OneWire.NextIsSuccessor | Lua/sensor.c:259-356 | with the deepest branch where 0 was taken as the only memory, the next walk finds the device that comes right after the last one in the order of bits sent |
| OneWire.FirstIsLeast | Lua/sensor.c:359-365 | the first walk finds the least device |
| OneWire.Enumerates | Lua/sensor.c:259-370 | First and then Next give every device once, in order, and the call after the last one returns 0 with the search reset |
| OneWire.EnumerationIsCompleteIff | Lua/sensor.c:259-370 | the calls list the whole bus if and only if no device has a zero family byte |
| OneWire.ZeroFamilyStopsSearch | Lua/sensor.c:345-353 | a device with a zero family byte comes first in the order and ends the search at the first call |
| OneWire.CallsReportDevices | Lua/sensor.c:359-370 | what each call returns, for every bus |
| OneWire.SortedProperties | Lua/sensor.c:259-356 | the order lists each device of a finite bus once, increasingly |
| OneWire.WalkFinds | Lua/sensor.c:275-341 | a walk below any prefix that some device has ends at a device with that prefix |
| OneWireMaster.ReadsTellBranches | Lua/sensor.c:285-294 | two wired-AND reads tell whether the devices that still take part agree on the bit, differ, or are none |
| OneWireMaster.RomOverwritten | Lua/sensor.c:313-319 | setting or clearing one bit under the byte mask replaces exactly that bit of the device number |
| OneWireMaster.Master.WalkBits | Lua/sensor.c:259-341 | the bit loop leaves the walk's device in the ROM bytes and the deepest 0-branch in last_zero |
| OneWireMaster.Master.Search | Lua/sensor.c:259-356 | one call returns and leaves behind what the search step says, with bytes, masks and counters as in the source |
| OneWireMaster.Master.First | Lua/sensor.c:359-365 | First is a reset and a step |
| OneWireMaster.Master.Next | Lua/sensor.c:367-370 | Next is a step |
| OneWireMaster.Sensors.OwSearch | Lua/sensor.c:1203-1223 | the table gets the first two devices that the bus reports, as rows of bytes in order, and their number |
| OneWireMaster.Sensors.Ds18b20Search | Lua/sensor.c:1178-1199 | each of the first owNumDev rows is a reported device whose first byte is 0x28, 0x10, 0x22 or 0x42, the two rows are in order, and a reported device with such a byte is missing only when two that come before it fill the table |
| Crc.ChecksumIsRemainder | common/ymodem.c:71-85 | the register after a message is the remainder of long division of the message and sixteen zeros by the generator |
| Crc.TopIsShiftAndZeros | common/CheckSumUtils.c:59-98 | the receiver's register, which feeds bits in at the top, equals the sender's after sixteen zero bits |
| Crc.CheckAcceptsExactlyTheTrailer | common/ymodem.c:157-161 | a message with two more bytes checks to zero if and only if they are the high and low byte of its checksum |
| Crc.BurstIsDetected | common/ymodem.c:157-161 | two different strings of bytes that differ only within sixteen consecutive bits never have the same checksum |
| CrcCode.UpdateCrc16 | common/CheckSumUtils.c:59-76 | the loop with its marker bit shifts the eight bits of a byte into the register |
| CrcCode.Crc16Context.Update | common/CheckSumUtils.c:84-90 | an update shifts in all bits of its bytes |
| CrcCode.CalCrc16 | common/ymodem.c:59-69 | the sender's routine computes the checksum of its bytes |
| CrcCode.Crc16 | common/ymodem.c:71-85 | the receiver's routine computes the same checksum |
| Crc8.TableIsByteStep | common/CheckSumUtils.c:24-41 | each of the 256 entries is eight steps of the bitwise register |
| Crc8.Crc8Table | common/CheckSumUtils.c:43-51 | the table loop computes the checksum from any start value |
| Crc8.OneWireCrc8 | Lua/sensor.c:470-486 | the bitwise loop computes the same checksum |
| Crc8.CheckIsZeroChecksum | Lua/sensor.c:583-588 | comparing the last byte with the checksum of the others is the same as a zero checksum over all |
| YmodemPacket.PrepareInitialPacket | common/ymodem.c:311-342 | the packet built for a name of up to 64 bytes and a size is whole and carries them |
| YmodemPacket.PreparePacket | common/ymodem.c:362-386 | the packet built for a block is whole and carries its number and the next 1024 bytes, filled up with 0x1A |
| YmodemPacket.PrepareLastPacket | common/ymodem.c:345-359 | the empty packet is whole |
| YmodemPacket.ReceivePacket | common/ymodem.c:123-162 | what the receiver's routine reports of any bytes that arrive before the time-out |
| YmodemPacket.BuiltPacketArrives | common/ymodem.c:123-162 | a packet that was built arrives with its number and payload |
| YmodemWire.PacketHeader | common/ymodem.c:362-386 | in bytes: 1 or 2 for the length, the number and its complement, the payload, and two more bytes |
| YmodemWire.FileInfoBytes | common/ymodem.c:311-342 | the first payload is the name, a NUL, the size in decimal digits, a blank, and NULs |
| YmodemWire.ControlBytes | common/ymodem.h:17-26 | C is 0x43, the end mark 0x04 and a cancel two bytes 0x18 |
| YmodemWire.ControlReceived | common/ymodem.c:123-155 | what the receiver reports of 0x04, 0x18 0x18, A, a and every other first byte |
| YmodemPacket.CorruptedPacketFails | common/ymodem.c:157-161 | a packet that is corrupted within sixteen consecutive bits of payload and trailer is rejected |
| YmodemPacket.FileInfoParses | common/ymodem.c:211-222 | the receiver reads back the name and size that the sender wrote, and reads no further than the payload |
| YmodemPacket.ParseName | common/ymodem.c:211-214 | the loop over the name |
| YmodemPacket.ParseSize | common/ymodem.c:216-222 | the loops up to the size, for a payload in which it ends |
| YmodemPacket.ReadSize | common/ymodem.c:216-222 | the same loops over the packet buffer and the 16-byte buffer for the size stay inside both if and only if a NUL ends the name and a blank ends the size within the packet buffer after less than sixteen characters, and then give that size |
| YmodemPacket.RestDoesNotMatter | common/ymodem.c:216-222 | when both end inside the payload, the bytes behind it do not matter |
| YmodemSafety.StepKeepsInv | common/ymodem.c:170-308 | each step of sender, receiver and links keeps the invariant of the transfer |
| YmodemSafety.TransferIsSafe | common/ymodem.c:419-535 | in every run over links that lose and detectably damage, the received file is a prefix of the sent one, the receiver is at most one packet ahead of the ACKs, and a sender that returned 0 has left an equal file |
| YmodemCompletion.TransferSucceedsIff | common/ymodem.c:225-230 | there is a run in which the sender returns 0 if and only if the file is not empty and not above the receiver's limit |
| YmodemCompletion.FinishFrom | common/ymodem.c:446-535 | from every block or the end mark on there is a run in which the sender returns 0 and the receiver the size of the file |
| YmodemReturn.ReceiverReturnsSize | common/ymodem.c:244-250 | in every run, a receiver that returns a positive number returns the size of the file and has the whole file under its name; any other result is 0, -3, or -4 for an empty file or one above the limit |
| YmodemReturn.BothReportSuccess | common/ymodem.c:170-308 | for every file that is not empty and within the limit there is a run in which the sender returns 0 and the receiver the size, with the file and its name received |
| YmodemResend.RunStaysInStep | common/ymodem.c:185-206 | in every run in which no reply is damaged into a NAK, no NAK is ever on its way, and whole frames on the line are the expected one and later ones, each once |
| YmodemResend.SentAgainIffNak | common/ymodem.c:452-462 | from every state in which the frame that both wait for is gone, in every run, it is sent again if and only if the sender reads a NAK |
| YmodemResend.LostFrameEndsTransfer | common/ymodem.c:419-535 | in every run that had no reply damaged into a NAK before, a frame up to the end mark that is lost or damaged on its way is sent again if and only if a NAK is read, such a NAK can only be a damaged reply, and without it the sender waits on or returns 90 or 98 with the receiver's file unchanged and, for a block, short |
| YmodemResend.ForgedNakRepairs | common/ymodem.c:452-462 | with a reply damaged into a NAK, a transfer that had a block damaged still succeeds |
| YmodemCount.SentOnceAndForEachNak | common/ymodem.c:452-532 | in every run, each frame is sent once when the sender gets to it and once more for each NAK read while the sender waits for its ACK |
| YmodemBudget.SendsAreBounded | common/ymodem.c:291-297 | in every run, however replies are lost or damaged, the file name and each block are sent at most 94 times, twice the receiver's limit of errors and four |
| YmodemMost.BoundIsReached | common/ymodem.c:475-495 | for every block of every file that can be transferred there is a run in which it is sent exactly 94 times |
| YmodemLastPacket.LastPacketIsBounded | common/ymodem.c:521-532 | in every run the empty packet is sent at most 49 times, although each end mark still on the line is answered |
| YmodemCount.EndMarkSentWithoutLimit | common/ymodem.c:502-513 | for every number there is a run in which the end mark is sent again as often |
| YmodemWire.PollsFortyFiveTimes | common/ymodem.c:432-443 | when nothing comes, the sender asks 46 times and then returns 99 |
| YmodemCode.WaitAckLoop | common/ymodem.c:389-415 | the wait loop gives the verdict of the state machine and answers a cancel |
| YmodemCode.SendUntilAcked | common/ymodem.c:452-462 | the resend loop leaves the state machine acknowledged or returned with the same code |
| YmodemCode.Drain | common/ymodem.c:432 | what has come in before is thrown away |
| YmodemCode.Transmit | common/ymodem.c:419-535 | for every sequence of replies, whatever has come in before, the function sends the frames of the sender's state machine and returns its code |
| YmodemReceive.Session.HandleCall | common/ymodem.c:179-300 | one pass of the inner loop is one step of the receiver's state machine |
| YmodemWire.ControlReplies | common/ymodem.c:185-300 | the reply, as a byte, and the result for an end mark, a cancel, an abort and a failed read |
| YmodemWire.DataReplies | common/ymodem.c:255-285 | a block with the number that is due is written up to the size and acknowledged |
| YmodemWire.FirstReplies | common/ymodem.c:208-250 | what the first packet of a session is answered with, and the result for an empty name and for sizes out of range |
| YmodemWire.EndsInsideIff | common/ymodem.c:216-222 | the payloads whose size is read inside them, and the text of the size, by the positions of the first NUL and of the blank behind it |
| YmodemWire.NameIs | common/ymodem.c:211-214 | the name is the bytes before the first NUL, 64 at most |
| YmodemWire.WaitingForRequest | common/ymodem.c:464-473 | what the sender does on each reply byte while it waits for C |
| YmodemWire.WaitsFortyFiveTimes | common/ymodem.c:289-300 | when nothing comes, the receiver asks 45 times and then returns 0 |
| YmodemWire.WaitingForAck | common/ymodem.c:389-415 | what the sender does on each reply byte while it waits for an ACK |
| YmodemReceive.Receive | common/ymodem.c:170-308 | for all bytes that arrive the function replies and writes what the receiver's state machine says |
| YmodemReceive.FrameArrives | common/ymodem.c:123-162 | the bytes that the sender writes for a frame make the receiver take the step of that frame |
| StrBuf.Buffer.CalculateNewSize | Lua/strbuf.c:134-159 | growing doubles the size until it suffices and less than twice what is needed; shrinking is exact |
| StrBuf.Buffer.Resize | Lua/strbuf.c:164-180 | a reallocation keeps the contents |
| StrBuf.Buffer.EnsureEmptyLength | Lua/strbuf.h:95-99 | there is room afterwards, and nothing moves when there was room |
| StrBuf.Buffer.AppendString | Lua/strbuf.c:182-198 | the string is appended, without a reallocation when it fits |
| StrBuf.Buffer.AppendMemUnsafe | Lua/strbuf.h:134-138 | with the room reserved, the bytes are appended in place |
| Utf8.EncodeIsWellFormed | Lua/lua_cjson.c:778-812 | what is written for a scalar value is well-formed UTF-8 and decodes to it |
| Utf8.EncodingIsUnique | Lua/lua_cjson.c:778-812 | no other well-formed bytes decode to it |
| Utf8.EscapeAccepts | Lua/lua_cjson.c:822-870 | an escape is accepted exactly when it is one code unit or a surrogate pair; a lone surrogate never is |
| Utf8.EscapeIsScalar | Lua/lua_cjson.c:822-878 | an accepted escape is a scalar value whose UTF-8 form is at most half as long |
| Utf8.EscapesAreRead | Lua/lua_cjson.c:822-878 | the UTF-16 escapes of each scalar value are read as that value |
| JsonLexer.UnquoteEscaped | Lua/lua_cjson.c:888-946 | reading a string undoes quoting, for every byte string |
| JsonLexer.StringIsNoLonger | Lua/lua_cjson.c:1277-1280 | a decoded string is shorter than its text |
| JsonLexer.QuotedReads | Lua/lua_cjson.c:458-482 | a quoted string is read as one token whatever follows |
| JsonLexer.NumberReads | Lua/lua_cjson.c:999-1011 | number text is read as one token before a delimiter |
| JsonGrammar.TreeIsParsed | Lua/lua_cjson.c:1138-1254 | the tokens of a value are parsed to it if and only if its nesting is within the limit |
| JsonGrammar.ParsedIsTree | Lua/lua_cjson.c:1138-1254 | what is parsed is a value of the grammar within the limit |
| JsonGrammar.DecodeAcceptsGrammar | Lua/lua_cjson.c:1256-1294 | a text is decoded to a value if and only if its tokens are those of one value of the grammar with nothing after it, within the limit, and it is that value |
| JsonGrammar.GrammarIsUnambiguous | Lua/lua_cjson.c:1227-1254 | a token list starts with at most one value |
| JsonGrammar.NulHidesTheRest | Lua/lua_cjson.c:1264-1289 | what stands behind a NUL does not change the result |
| JsonText.DecodesText | Lua/lua_cjson.c:1256-1294 | a byte string is decoded to a value if and only if neither of its first two bytes is 0 and the bytes before its first NUL are a tree of that value within the depth limit, written in literal bytes with any runs of 0x20, 0x09, 0x0A and 0x0D before, between and behind the tokens |
| JsonText.TextOfTree | Lua/lua_cjson.c:1017-1089 | the tokenizer finds the tokens of a tree exactly in these texts |
| JsonText.ControlByteIsRefused | Lua/lua_cjson.c:405-412 | any other control byte in front of a token is an error |
| JsonText.SpelledIsRead | Lua/lua_cjson.c:403-430 | punctuation, words, strings and numbers in literal bytes are read as one token each, and no further |
| JsonText.ReadIsSpelled | Lua/lua_cjson.c:1017-1089 | nothing else is read as a token |
| JsonText.CharsAreRead | Lua/lua_cjson.c:888-946 | a string in literal escapes is read as its bytes |
| JsonText.ReadIsChars | Lua/lua_cjson.c:888-946 | nothing else is read as a string |
| JsonText.EscapesAre | Lua/lua_cjson.c:148-185 | the text of each of the 256 bytes in a string |
| JsonText.LengthIs | Lua/lua_cjson.c:488-529 | a table is an object, an array or too sparse, by its keys, the number of its entries and the settings |
| JsonText.FailuresAre | Lua/lua_cjson.c:663-704 | which of the five errors comes when, and that an empty table is an object |
| JsonText.ArrayIsListed | Lua/lua_cjson.c:561-581 | an array is its elements in brackets with a comma between each two and nothing else |
| JsonText.ObjectIsListed | Lua/lua_cjson.c:621-660 | an object is its members in braces, key, colon and value, with a comma between each two |
| JsonEncode.TextIsLexed | Lua/lua_cjson.c:561-704 | the tokenizer finds in the encoder's text the tokens of the value |
| JsonEncode.TreeIsWritten | Lua/lua_cjson.c:663-704 | what the encoder writes is a value of the grammar within its own depth limit, with readable leaves and keys |
| JsonRoundTrip.DenseIsArray | Lua/lua_cjson.c:488-529 | an array without holes is never taken for a sparse one |
| JsonRoundTrip.EncodedIsDecoded | Lua/lua_cjson.c:706-737 | everything that is encoded is decoded, unless it is nested too deep for the decoder |
| JsonRoundTrip.FaithfulIsEncoded | Lua/lua_cjson.c:663-704 | every value that JSON can hold is encoded, with finite numbers and within the depth limit |
| JsonRoundTrip.RoundTrip | Lua/lua_cjson.c:706-737 | encoding and decoding gives the value back if and only if its tables are dense arrays or have string keys only and its numbers survive their text |
| JsonRoundTrip.DecodeUndoesEncode | Lua/lua_cjson.c:1256-1294 | such values are encoded, and decoding gives them back, for every order of table entries |
| JsonEncoder.AppendString | Lua/lua_cjson.c:458-482 | after reserving six bytes a character and two, the mixed appends write exactly the quoted string and never reallocate |
| JsonEncoder.LuaArrayLength | Lua/lua_cjson.c:488-529 | the loop over a table finds the array length, an object or the sparse error |
| JsonEncoder.AppendArray | Lua/lua_cjson.c:561-581 | the loop appends the array's text with null for holes, or fails as its first failing element does |
| JsonEncoder.AppendObject | Lua/lua_cjson.c:621-660 | the loop appends the object's text, or fails as its first failing entry does |
| JsonEncoder.AppendData | Lua/lua_cjson.c:663-704 | a value's text is appended, or the error is that of the specification |
| JsonEncoder.Encode | Lua/lua_cjson.c:706-737 | the encoder with its reused buffer returns what the specification says, whatever the buffer held |
| JsonDecoder.Parser.DecodeHex4 | Lua/lua_cjson.c:755-774 | four hex digits, without a read behind the NUL |
| JsonDecoder.Parser.AppendUnicodeEscape | Lua/lua_cjson.c:822-878 | an escape is appended as UTF-8 by an unchecked append that fits |
| JsonDecoder.Parser.StringLoop | Lua/lua_cjson.c:888-946 | the string loop finds the string of the specification and never writes more bytes than it has read |
| JsonDecoder.Parser.LooksInvalid | Lua/lua_cjson.c:963-997 | the check for numbers that strict JSON forbids, without a read behind the NUL |
| JsonDecoder.Parser.NextToken | Lua/lua_cjson.c:1017-1089 | the next token of the specification, and the rest of the text behind it |
| JsonDecoder.Parser.ParseArrayContext | Lua/lua_cjson.c:1189-1224 | an array is parsed as specified, and the depth is restored |
| JsonDecoder.Parser.MembersLoop | Lua/lua_cjson.c:1155-1185 | an object is parsed as specified, with each key copied before the shared buffer is overwritten |
| JsonDecoder.Parser.ProcessValue | Lua/lua_cjson.c:1227-1254 | a value is parsed as specified, and the depth is restored |
| JsonDecoder.Decode | Lua/lua_cjson.c:1256-1294 | the decoder returns what the specification says on every input, and ends |
| Sha2.AbsorbConcat | Lua/sha2.c:453-498 | whole blocks can be hashed in any portions |
| Sha2.PadLength | Lua/sha2.c:500-545 | the padded message is a whole number of blocks |
| Sha2Transform.RingStep | Lua/sha2.c:412-425 | the word computed from the sixteen slots is the next word of the full message schedule |
| Sha2Transform.MacroIsRound | Lua/sha2.c:293-313 | with the registers renamed, one unrolled macro is one round of FIPS 180-4 |
| Sha2Transform.Context.TakeWord | Lua/sha2.c:395-398 | a word of the block moves into the schedule, also when block and schedule share the buffer |
| Sha2Transform.Context.ExpandWord | Lua/sha2.c:414-424 | the expansion in place keeps the last sixteen words |
| Sha2Transform.Context.Transform | Lua/sha2.c:376-447 | the plain form computes the compression of sections 6.2.2 and 6.4.2 of FIPS 180-4, aliased or not |
| Sha2Transform.Context.TransformUnrolled | Lua/sha2.c:316-372 | so does the unrolled form |
| Sha2Count.AddInc128 | Lua/sha2.c:126-131 | the two-word counter is exact modulo 2^128 |
| Sha2Count.UsedSpace | Lua/sha2.c:462-462 | the bytes in the buffer can be read off the counter even after it wrapped around |
| Sha2Count.ReversedIsBigEndian | Lua/sha2.c:111-118 | a reversed word stored by a little-endian host is in big-endian form |
| Sha2Count.LengthField | Lua/sha2.c:500-545 | the padding ends with the number of bits, big end first, in 64 or in 128 bits |
| Sha2Stream.Update | Lua/sha2.c:453-498 | an update of any length extends the message that the context stands for |
| Sha2Stream.Last | Lua/sha2.c:785-826 | the padding, in one block or two, leaves the state after the padded message |
| Sha2Stream.Final | Lua/sha2.c:499-560 | the digest is the hash of the message in big-endian words |
| Sha2Stream.HashOfPieces | Lua/sha2.c:739-783 | however a message is cut into updates, the digest is the hash of the whole |
| Sha2Words.Lawful256 | Lua/sha2.c:140-165 | the 32-bit operations are as the proofs assume |
| Sha2Words.Lawful512 | Lua/sha2.c:140-165 | so are the 64-bit operations |
| Sha2Words.Sha256 | Lua/sha2.c:278-560 | SHA-256 with the source's constants |
| Sha2Words.Sha384 | Lua/sha2.c:859-903 | SHA-384: the initial values of its own and six words |
| Sha2Words.Sha512 | Lua/sha2.c:564-856 | SHA-512 with the source's constants |
| Sha256Vector.SigmasAre | Lua/sha2.c:154-157 | the four functions of SHA-256 as rotations and shifts |
| Sha256Vector.ConstantsAreCubeRoots | Lua/sha2.c:177-194 | each of the 64 constants is the first 32 bits behind the point of the cube root of its prime |
| Sha256Vector.InitialsAreSquareRoots | Lua/sha2.c:197-206 | the initial values are those of the square roots of the first eight primes |
| Sha256Vector.Sha256OfAbc | Lua/sha2.c:278-560 | the digest of "abc" is the published one |
| Sha512Vector.SigmasAre | Lua/sha2.c:160-163 | the four functions of SHA-512 |
| Sha512Vector.ConstantsAreCubeRoots | Lua/sha2.c:209-250 | its 80 constants, with 64 bits |
| Sha512Vector.InitialsAreSquareRoots | Lua/sha2.c:253-274 | the initial values of SHA-384 and SHA-512 are those of the square roots of the first sixteen primes |
| Sha512Vector.Sha512OfAbc | Lua/sha2.c:564-856 | the digest of "abc" is the published one |
| Sha512Vector.Sha384OfAbc | Lua/sha2.c:859-903 | so is that of SHA-384 |
| BlockHash.AbsorbedConcat | Lua/md5.c:73-105 | whole 64-byte blocks can be hashed in any portions |
| BlockHash.KeepsRest | Lua/md5.c:102-105 | data that does not fill the buffer leaves the state and extends the message |
| Md5.MacroIsStep | Lua/md5.c:136-147 | the source's step and its shortened F1 are the step of RFC 1321 |
| Md5.Context.Transform | Lua/md5.c:154-248 | the 64 steps with renamed registers are those of section 3.4 of RFC 1321 |
| Md5.Context.Update | Lua/md5.c:73-105 | an update of any length extends the message that the context stands for |
| Md5.Context.Final | Lua/md5.c:111-133 | padding by two updates gives the digest of RFC 1321 |
| Md5.Md5Of | Lua/md5.c:73-133 | however a message is cut, the digest is that of the whole |
| Md5Vector.Md5OfAbc | Lua/md5.c:73-248 | the digest of "abc" is the one that RFC 1321 gives |
| Sha1.MacroIsStep | Lua/sha1.c:42-46 | with the registers renamed, one macro is one step of section 6.1.2 of FIPS 180-4 |
| Sha1.TurnedIsBigEndian | Lua/sha1.c:33-36 | blk0 turns a native word into the big-endian one |
| Sha1Code.ExpandedIsPrepared | Lua/sha1.c:40-41 | the schedule in the block keeps its last sixteen words |
| Sha1Code.Context.Transform | Lua/sha1.c:50-104 | the transform hashes the block and leaves words 64 to 79 of its schedule in it |
| Sha1Code.Context.Update | Lua/sha1.c:124-142 | an update extends the message, adds its length shifted within 32 bits to the counter, and leaves in the data the bytes before the second block, the end of the schedule of each whole block behind it, and the last bytes |
| Sha1Code.CountStaysRightIff | Lua/sha1.c:131-131 | the counter stays right if and only if the update is shorter than 2^29 bytes |
| Sha1Code.Context.PadOut | Lua/sha1.c:157-160 | the padding loop ends, with the least number of zeros |
| Sha1Code.Context.Final | Lua/sha1.c:147-168 | the digest is the hash of the message with the counter as its length |
| Sha1Pieces.FedIsJoinedIff | Lua/sha1.c:124-142 | when strings may be given more than once, the message hashed is the strings as they were if and only if no update changes a string that is given again |
| Sha1Pieces.NoneReusedIsUnspoilt | Lua/sha1.c:132-137 | it suffices that a string that is given again fills no whole block behind the first one, or only with zeros |
| Sha1Pieces.ReusedStringIsSpoilt | Lua/sha1.c:132-137 | the same 128 bytes given twice: the second time other bytes are hashed |
| Sha1Pieces.Sha1Of | Lua/sha1.c:124-206 | the digest of updates with strings under 2^29 bytes is that of the message so fed; it is that of the original strings, one after the other, when none that is given again fills a whole block behind the first one with anything but zeros |
| Sha1Vector.Sha1OfAbc | Lua/sha1.c:50-206 | the digest of "abc" is the published one |
| Struct.IntegerReads | Lua/struct.c:264-288 | an integer of any size comes back as what its bytes and the 32-bit register keep of it, in either byte order, with its sign |
| Struct.FitsIff | Lua/struct.c:167-191 | it comes back unchanged if and only if it is in range |
| StructBytes.IntegerBytes | Lua/struct.c:167-191 | the bytes that pack makes of one integer are, for > the big end first and for < and the default the little end first, the number modulo 256 to the power of the size of its letter |
| StructBytes.IntegerRead | Lua/struct.c:264-288 | unpack gives the number of the bytes, in either order and with its sign |
| StructBytes.OtherLetters | Lua/struct.c:206-261 | the bytes for s, x, c and a blank |
| StructBytes.OptionLength | Lua/struct.c:92-133 | how many characters of a format an option takes |
| StructBytes.AlignedBytes | Lua/struct.c:135-140 | the padding in front of an integer for the default alignment, for ! and for !2 |
| StructBytes.Limits | Lua/struct.c:119-158 | integers have at most 32 bytes, and an alignment is a power of two |
| StructPack.TotalIsLength | Lua/struct.c:206-261 | totalsize is always the length of the result |
| StructPack.UnpackReads | Lua/struct.c:291-355 | unpacking at the same position gives back what the options keep of the arguments, whatever stands around, if and only if no string for option s has a NUL inside |
| StructPack.UnpackUndoesPack | Lua/struct.c:206-355 | unpack gives the arguments of pack back if and only if there is one for each option, each of them fits its option, and no string for option s has a NUL inside |
| StructPack.SizeIsLength | Lua/struct.c:358-377 | for formats of fixed size, size is the length of what pack makes |
| StructPack.SizeAgreesWithPackIff | Lua/struct.c:358-377 | size takes a format that has no such letter if and only if it is of fixed size and some arguments can be packed with it |
| StructPack.SizeAgreesWithUnpackIff | Lua/struct.c:358-377 | the same for some data that can be unpacked with it |
| StructPack.SizeIgnoresLetters | Lua/struct.c:370-371 | such a letter, which size takes and pack and unpack reject |
| StructPack.AlignsToSize | Lua/struct.c:135-140 | an integer whose size is a power of two starts at the next multiple of its size or of the alignment |
| StructCode.ReadNumber | Lua/struct.c:92-101 | the number loop of formats |
| StructCode.WriteInteger | Lua/struct.c:167-191 | the shift loops write the bytes of the specification |
| StructCode.ReadInteger | Lua/struct.c:264-288 | the shift loops and the sign mask read the integer of the specification |
| StructCode.BPack | Lua/struct.c:206-261 | the format loop of pack |
| StructCode.BUnpack | Lua/struct.c:291-355 | the format loop of unpack |
| StructCode.BSize | Lua/struct.c:358-377 | the format loop of size |
| RingBuffer.Buffer.CountersTell | Lua/retarget.c:65-88 | wrapping counters tell an empty buffer and its length |
| RingBuffer.Buffer.Fill | Lua/retarget.c:147-161 | a burst is queued byte by byte, a full queue giving up its oldest byte each time |
| RingBuffer.Buffer.Put | Lua/bt.c:89-95 | one byte of a burst, also from Bluetooth |
| RingBuffer.Buffer.GetC | Lua/retarget.c:82-83 | the oldest unread byte is delivered |
| RingBuffer.NothingElseIsLost | Lua/retarget.c:65-88 | in every interleaving, each byte that left the buffer was delivered or lost, in order, and lost only with 256 newer ones behind it |
| RingBuffer.KeepingUpLosesNothing | Lua/retarget.c:147-161 | when nothing was overwritten, delivered and unread bytes are the whole stream |
| Watchdog.AlwaysCountedIff | Lua/main.c:97-150 | in every interleaving, the count is the resets done and asked for all the way if and only if no step doubles a reset |
| Watchdog.RebootsIff | Lua/main.c:125-150 | a step reboots if and only if a thread finds more than 145 requests counted, and then the timer is not reset |
| Watchdog.ResetsAreBounded | Lua/main.c:97-150 | in every interleaving, the timer is reset at most twice for each request, and 290 times before the reboot |
| Watchdog.ResetsAreCounted | Lua/main.c:97-150 | while the threads do not meet in the function, the count is right and the timer is reset at most 145 times before the reboot |
| Watchdog.TwoResetsForOneRequest | Lua/retarget.c:101-115 | when the threads meet, each request can reset the timer twice: the bound of 290 is reached |
| Watchdog.ResetInTime | Lua/main.c:97-150 | in every interleaving in which the Lua thread is never silent for 10834 ticks, and at most 48 interrupts come from a request on until it is answered and both threads are outside again, fewer than 13001 ticks pass between resets, even with interrupts between the reset and the zeroing of the time |
| Watchdog.LimitIsExact | Lua/main.c:73-74 | with a limit of n interrupts in place of 48, no run passes 13001 ticks if and only if n is at most 48 |
| Watchdog.HeldUpThreadMissesReset | Lua/retarget.c:101-115 | when only the requests have to be answered, even before the next interrupt, a run in which both threads are inside passes 13001 ticks |
| Watchdog.PromptIsEnoughInSerialRuns | Lua/main.c:97-150 | while the threads do not meet, answering the requests in time is enough |
| Watchdog.Timer.SysTimerCallback | Lua/main.c:99-112 | the interrupt is a step of the model |
| Watchdog.Timer.ResetWdg | Lua/main.c:125-150 | an uninterrupted call is its five accesses in a row |
| Watchdog.ScheduledStartup | Lua/main.c:163-169 | the wake-up time is the least multiple of the interval after now |

## Left out

- 1-Wire bit timing, DHT reading, temperature conversion, alarms and the commented-out search variants: no computation that the bus model does not have.
- YMODEM at byte level within a packet that stops half-way, several files in one session, failures of the file system, the timing of waits, and sizes from 10^9 on: the links carry whole frames.
- YmodemSafety.TransferIsSafe: damage is detectable by assumption (`CorruptedPacketFails` says which damage the CRC detects), and links neither duplicate nor forge frames or ACKs.
- JSON number text: snprintf, strtod, the locale handling of `Lua/fpconv.c`, NaN, infinity and hex numbers are behind the assumed `Codec`; `encode_invalid_numbers` is at its default.
- JSON error messages and token positions: an error is an error, or one of five kinds in the encoder.
- JSON light userdata other than NULL, for which the source writes nothing at all, and table keys that are infinite or beyond the range of int.
- Linear growth of string buffers and `strbuf_append_fmt`: nothing calls them.
- Overflow of the source's int sizes for texts near 2^31 bytes.
- Clearing of the hash contexts after Final, and the Lua bindings of the hashes.
- YmodemCode.Transmit: the source fills 63 of the 64 bytes of its name buffer, so that a name from 63 bytes on ends at an unset byte; `f.name` is what the buffer holds.
- YmodemPacket.PrepareInitialPacket: empty names, whose packet would end the session, and sizes from 10^9 on, whose digits do not fit the source's ten bytes.
- YmodemPacket.ParseSize: behind a first payload whose name or size does not end inside it, the source reads on in its packet buffer (YmodemPacket.ReadSize); here the loops stop at the end of the payload.
- YmodemReceive.Session.HandleCall: such payloads are excluded (`EndsInside` says which are not).
- YmodemReceive.Receive: the same.
- Struct.FitsIff: signed integers of no byte or of more than four, whose sign mask the source shifts by more than a word, so that C leaves the result open; the same for StructCode.ReadInteger.
- StructCode.ReadInteger: see Struct.FitsIff.
- StructPack.TotalIsLength: formats with floats and doubles, with `c0`, whose length is the argument before it, and with the signed integers of Struct.FitsIff; numbers outside the range where the conversion to long is defined.
- StructPack.UnpackReads: formats as in StructPack.TotalIsLength.
- StructPack.UnpackUndoesPack: formats as in StructPack.TotalIsLength.
- StructPack.SizeIsLength: formats as in StructPack.TotalIsLength.
- StructPack.SizeAgreesWithPackIff: formats as in StructPack.TotalIsLength.
- StructPack.SizeAgreesWithUnpackIff: formats as in StructPack.TotalIsLength.
- StructCode.BPack: formats as in StructPack.TotalIsLength.
- StructCode.BUnpack: formats as in StructPack.TotalIsLength, and start positions below 1, where the source's check against the length of the data wraps around.
- StructCode.ReadNumber: numbers in a format are not bounded to an int, and a NUL inside a format is a bad option here, while it ends the format in the source.
- StructCode.BSize: formats as in StructPack.TotalIsLength.
- RingBuffer.Buffer.GetC: the wait for a byte and its signal are not modelled; the mutex makes the bodies atomic.
- Watchdog.ScheduledStartup: time is not bounded to 32 bits.
- The LED part of the timer interrupt, the callbacks before reboot and shutdown, and everything after the reboot.
- `include/`, the LCD, touch, audio, GSM, GPRS, HTTPS, TCP, SNTP, GPIO and I2C modules and the JavaScript port: calls into the SDK.
