# Verified model of the WebSocket framing stack

This project models how rust-websocket turns messages into bytes and bytes into messages, the
part of RFC 6455 in sections 5.1 to 5.6, and proves that the two directions fit together.

| file | what it models |
|---|---|
| `Results.dfy`, `Bytes.dfy`, `Utf8.dfy`, `ExclusiveOr.dfy` | errors, bytes, big-endian integers, UTF-8 (section 4 of RFC 3629), `^` on bytes |
| `Streams.dfy` | readers, `BytesMut` and its writer, `Masker`, `write_all` |
| `Masking.dfy` | `mask_data`, scalar and SIMD |
| `Header.dfy` | the data frame header |
| `DataFrames.dfy` | data frames and the blocking read |
| `Messages.dfy` | messages and `from_dataframes` |
| `Sending.dfy` | `frame_size`, `write_to`, the body of both encoders |
| `FrameCodec.dfy` | `DataFrameCodec`, the wire form of frames |
| `Assembly.dfy` | the reference semantics of receiving: parse all frames, then fold them |
| `MessageCodec.dfy`, `Runs.dfy` | the incremental assembler and its whole runs |
| `Receiver.dfy` | the blocking assembler and its agreement with the incremental one |
| `Layout.dfy` | section 5.2 of RFC 6455 by byte positions and opcode numbers, and that frames are read and written there |
| `Outcomes.dfy` | what the first frame of a stream does to a receiver, by position: the message it completes or the error it is refused with |
| `RoundTrip.dfy` | one message through `encode` and `decode` |
| `Scripts.dfy` | fragmented messages with control messages in between, and how they fold |
| `EndToEnd.dfy` | the theorems across all layers |

Code that changes state is modelled by classes and methods, and each method is proved against a
specification function (`DecodeCall`, `RecvCall`, `ParseHeader`, `Wire`, ...). The lemmas then say
what those functions are worth: a run is "parse, then fold"; it does not depend on chunking; both
assemblers run alike; and a stream is accepted, with nothing left over, exactly when it is the wire
form of a *script*, that is of messages cut into fragments with control messages in between.

The wire format itself is pinned apart from the code: `Layout` says where section 5.2 puts every bit,
length byte, key byte and payload byte, `Utf8.EncodeText` what UTF-8 text is, and `Outcomes.Refused`
which bytes are refused with which error. `EndToEnd.ErrorFreeIff` and `EndToEnd.ErrorIff` together
describe how every run ends in these terms.

How to read the model:

- A panic of the original is an error value, `Panic(cause)`, that ends the run like any other error.
- The random masking key is a parameter, so every statement about it is for all keys.
- A `String` is its UTF-8 bytes, so the lossy conversion of validated bytes is the identity.
- Bytes are integers from 0 to 255. `ExclusiveOr.XorIsMachineXor` ties the arithmetic exclusive or
  to the machine's.
- `usize` has 64 bits, and no `Vec` or buffer holds more than `isize::MAX` (`MAX_VEC`) bytes.
- The end of the input inside a read is `NoDataAvailable` (src/result.rs:112-119).
- `hide` in a proof keeps function bodies from the solver; it adds no assumption.

Three things the model brings out:

- `Masker` never advances `pos`, so each write restarts at key byte 0. Separate writes mask like one
  exactly when each is in phase with the key (`Masking.PiecesIff`). A close message with a reason
  makes two writes, and comes back from a masked connection exactly when key[0] = key[2] and, for
  reasons of two or more bytes, key[1] = key[3] (`RoundTrip.MessageRoundTrip`).
- `read_header` does not check that the top length bit is zero. A length of 2^63 or more makes the
  blocking receiver panic while allocating; one that, added to the size of its header, reaches 2^64
  makes the incremental receiver panic in `split_to`.
  Both conditions are exact (`Receiver.SyncPanicsIff`, `Runs.RunPanicsIff`, with `Runs.WrapExample`),
  and the two receivers agree exactly on the streams on which no header of 2^63 bytes or more is
  reached (`Receiver.SyncAgreesWithAsync`, `Receiver.HugeLengthExample`).
- The comment at src/ws/util/header.rs:26 allows opcodes up to 16; the code, and the model, up to 15.

## Model

| member | source | states |
|---|---|---|
| ExclusiveOr.XorIsMachineXor | src/ws/util/mask.rs:53 | the arithmetic exclusive or used by the model is `^` on eight bits |
| ExclusiveOr.XorTwice | src/ws/util/mask.rs:53 | masking with one key byte and unmasking with another restores a byte exactly when they are equal |
| Utf8.ValidUtf8Iff | src/message.rs:214-218 | a byte string is accepted as text if and only if it is the UTF-8 encoding of some list of Unicode scalar values |
| Masking.MaskData | src/ws/util/mask.rs:48-56 | the scalar loop combines byte i with key byte i mod 4, for every length |
| Masking.MaskDataSimd | src/ws/util/mask.rs:61-87 | the 32-lane version returns the bytes of the scalar one for every key and length, partial last chunk included; every store is inside the rounded-up buffer |
| Masking.MaskedUndo | src/ws/util/mask.rs:48-56 | masking is its own inverse under one key (section 5.3 of RFC 6455) |
| Masking.PiecesIff | src/ws/util/mask.rs:29-33 | separate writes through one masker equal one masked write, and unmask together, if and only if every write is in phase: its key bytes are those of its place in the payload |
| Masking.AlignedPieces | src/ws/util/mask.rs:29-33 | writes whose lengths, but for the last, are divisible by four are in phase with every key |
| Streams.Masker.Write | src/ws/util/mask.rs:29-33 | a write emits its data masked from key byte 0, whatever was written before |
| Streams.Socket.WriteAll | src/ws/util/mask.rs:29-33 | succeeds exactly when there is room for all bytes, and then appends them all, masked if the socket masks |
| Streams.Socket.WritePieces | src/ws/dataframe.rs:11-13 | whatever complete writes a `write_payload` makes, it emits each piece masked by itself, exactly if all fit |
| Header.WriteHeader | src/ws/util/header.rs:35-71 | refuses a bad opcode or a long control frame before writing anything; otherwise appends the one wire form |
| Header.ReadHeader | src/ws/util/header.rs:74-136 | succeeds, waits or fails as `ParseHeader` says, and has then read exactly the header, or for a malformed one exactly up to the end of its length; the `unreachable!` is proved dead |
| Header.HeaderReadIff | src/ws/util/header.rs:35-136 | a header is read from some bytes if and only if it is writable with control frames unfragmented and the bytes begin with its wire form |
| Header.ReadAfterWrite | src/ws/util/header.rs:35-136 | reading what was written gives the header back and leaves any tail |
| Header.WriteAfterRead | src/ws/util/header.rs:74-136 | whatever is accepted is byte for byte what writing it emits: length forms are minimal and unique |
| Header.HeaderStable | src/ws/util/header.rs:74-136 | a header or a definite error is not changed by more bytes |
| Header.StrictPrefixIncomplete | src/ws/util/header.rs:74-136 | every strict prefix of an acceptable header reads as end of input |
| Layout.HeaderOutcome | src/ws/util/header.rs:79-115 | for all bytes: a padded length, else a control frame with a long length, and a control frame with a short length but no FIN are refused with exactly their own error; a header is complete when nothing is refused and the key is there; all else waits |
| Layout.HeaderByPosition | src/ws/util/header.rs:79-135 | a header is read if and only if it is there, and every flag, the opcode, the big-endian length and the four key bytes are those at their places in section 5.2 of RFC 6455 |
| Layout.OnlyKeyMissing | src/ws/util/header.rs:117-128 | once the length is known, a header that is waited for lacks at most four bytes, and is complete as soon as they arrive |
| Layout.HeaderOnWire | src/ws/util/header.rs:46-68 | in a written header, FIN, the reserved bits, the opcode, the mask bit, the length and the key are at those same places |
| Layout.UnfinishedControlRefused | src/ws/util/header.rs:110-114 | the header of any short control frame without FIN, whatever follows it, is refused as a fragmented control frame |
| DataFrames.ReadDataframeBody | src/dataframe.rs:44-82 | a body is unmasked or refused as the role demands; only an opcode above 15 panics |
| DataFrames.ReadDataframe | src/dataframe.rs:85-100 | the blocking read gives the frame and takes exactly its bytes, or fails as `ReadFrame` says and has then, if the header was complete or malformed, taken what `Spent` says |
| Layout.OpcodeNumbers | src/dataframe.rs:138-197 | both directions of the opcode table are the numbers 0 to 15 of section 5.2 of RFC 6455 |
| Messages.FromDataframes | src/message.rs:186-243 | the loop reports the first faulty frame in order, else the message of the concatenated payload |
| Messages.SameMessage | src/message.rs:422-442 | opcode and payload determine a message |
| Messages.AssemblesIff | src/message.rs:186-243 | a list of frames becomes m if and only if it is nonempty, continued by Continuation only, free of reserved bits, and has the opcode and payload of m |
| Messages.FragmentationInsensitive | src/message.rs:186-243 | how a payload is cut into frames does not change the result, message or error, even through a code point or a close code |
| Messages.NoDataAvailableIff | src/message.rs:229-233 | assembly reports end of input exactly for a close body of one byte |
| Messages.FrameOfAssembles | src/message.rs:366-443 | a message taken as one data frame becomes that message again |
| Messages.FaultIff | src/message.rs:190-212 | assembly complains of no frames, of a stray opcode or of reserved bits exactly when the list is empty, or when the first frame at fault has the one or, failing that, the other |
| Messages.ContentErrors | src/message.rs:214-241 | a list without such a fault fails exactly for text or a close reason that is not UTF-8, for a close body of one byte, and for an opcode other than the five of messages |
| Sending.FrameSizeExact | src/ws/dataframe.rs:27-44 | `frame_size` is the exact length of the wire form, masked or not |
| Sending.WritesArePayload | src/message.rs:388-442 | the writes of `write_payload`, put together, are `take_payload`, and `size` is their length |
| Sending.WritePayload | src/message.rs:403-420 | writes all pieces in order, each masked by itself, exactly if there is room for `size` bytes |
| Sending.WriteTo | src/ws/dataframe.rs:53-91 | appends header and payload when `frame_size` bytes fit; a long control frame is refused with the writer untouched |
| Sending.Encode | src/codec/ws.rs:135-142 | after reserving `frame_size` no write is short: either exactly `frame_size` bytes are appended, or a control frame is too long and the buffer is untouched |
| FrameCodec.DataFrameCodec.Decode | src/codec/ws.rs:95-125 | cuts exactly one frame off the buffer, or leaves it untouched while the frame is incomplete; the wrapping 64-bit sum is the code's |
| FrameCodec.DataFrameCodec.Encode | src/codec/ws.rs:135-142 | masks for the client role only; otherwise as `Sending.Encode` |
| FrameCodec.NextFrameStable | src/codec/ws.rs:95-125 | a decoded frame or an error is not changed by more bytes |
| FrameCodec.FramePrefixWaits | src/codec/ws.rs:100-113 | every strict prefix of a frame is waited on |
| FrameCodec.SyncStepIff | src/dataframe.rs:85-100 | the incremental and the blocking frame reader agree on an input if and only if it does not begin with a header of 2^63 bytes or more |
| FrameCodec.StepPanicIff | src/codec/ws.rs:110-117 | the incremental frame reader panics if and only if the length in a complete header, added to the size of the header, does not fit in 64 bits |
| FrameCodec.FrameWireIsWire | src/ws/dataframe.rs:53-91 | the wire form of a data frame used below is what encoding the frame appends |
| FrameCodec.ReadFrameAfterWrite | src/dataframe.rs:44-100 | a sent frame is read back, with any key or none and any bytes behind it, by a receiver of the opposite role |
| FrameCodec.WrongRoleRefused | src/dataframe.rs:59-74 | the same frame is refused by a receiver of the same role, after exactly its bytes |
| FrameCodec.WriteFrameAfterRead | src/ws/dataframe.rs:53-91 | an accepted frame follows the control frame rules and its bytes are what sending it writes |
| Layout.FrameByPosition | src/dataframe.rs:44-82 | a frame is read if and only if a whole frame of the right role is there, and it is the one at its place: payload byte i is wire byte i of the payload, unmasked with byte i mod 4 of the key before it |
| Layout.NoFrameByPosition | src/codec/ws.rs:95-124 | when no frame is read: waiting exactly for an unfinished length, key or payload; otherwise the error, and whether nothing, the header or the whole frame is cut off |
| Layout.PanicsByPosition | src/codec/ws.rs:110-117 | the two panicking lengths in numbers: 2^63 or more, and an end of the frame at 2^64 or more |
| Layout.FrameOnWire | src/ws/dataframe.rs:53-91 | a written frame and its key are at the places of section 5.2, for any key or none |
| Layout.MessageOnWire | src/message.rs:366-442 | the first byte of a message is 81, 82, 88, 89 or 8A (hexadecimal) by its kind, followed by mask bit and length, key, and each payload byte masked with the key byte of its write; a close begins with its code, the high byte first |
| Assembly.AcceptKeepsUnfinished | src/codec/ws.rs:245-276 | the held fragments stay the unfinished beginning of one data message: opcode 1 to 7, then Continuation, none finished |
| Assembly.ReadAllAfterWriteAll | src/ws/dataframe.rs:53-91 | any list of sendable frames, with any keys, concatenated and followed by any bytes, parses to that list and then on with those bytes |
| Assembly.WriteAllAfterReadAll | src/dataframe.rs:44-100 | the consumed bytes are the wire form of the parsed frames, at least two bytes a frame |
| Assembly.PayloadConserved | src/codec/ws.rs:244-279 | data payload bytes of held fragments and frames equal, in order, those of the emitted data messages and the fragments still held |
| MessageCodec.DecodeCall | src/codec/ws.rs:244-279 | one call never grows the buffer and shrinks it when it gives a message, so decoding terminates |
| MessageCodec.MessageCodec.Decode | src/codec/ws.rs:244-279 | result, held fragments and bytes left are those of `DecodeCall`; the fragment invariant holds afterwards, also after an error |
| MessageCodec.MessageCodec.Encode | src/codec/ws.rs:289-296 | fails, with the buffer untouched, exactly for a control message over 125 bytes; otherwise appends exactly `message_size` bytes |
| MessageCodec.MessageCodec.DecodeAvailable | src/codec/ws.rs:244-279 | decoding until `None` or an error is the run `DecodeRun` |
| MessageCodec.MessageCodec.Feed | src/codec/ws.rs:244-279 | feeding chunks and decoding after each is the run `FeedRun` |
| Runs.RunIsParseThenFold | src/codec/ws.rs:244-279 | a run gives the messages, first error, held fragments and bytes left of parsing all frames and folding them |
| Runs.RunOfLongerStream | src/codec/ws.rs:244-279 | a run on a longer stream is the same if it ended in an error, and else goes on from its held fragments and bytes left |
| Runs.ChunkingDoesNotMatter | src/codec/ws.rs:244-279 | for every stream, split into chunks and held fragments: same messages, same first error, same fragments, and without error the same bytes left |
| Runs.RunKeepsUnfinished | src/codec/ws.rs:245-276 | the fragment invariant holds after every run, also one that ended in an error |
| Runs.NoUnreachableError | src/codec/ws.rs:244-279 | on no stream does the incremental receiver reach the opcode `expect`, "No dataframes provided" or "Unexpected non-continuation data frame" |
| Runs.RunPanicsIff | src/codec/ws.rs:244-279 | an incremental run panics, always in `split_to`, if and only if it meets a header whose 64-bit sum wraps |
| Runs.WrapExample | src/codec/ws.rs:110-117 | ten bytes on which the incremental receiver panics |
| Runs.RunConserves | src/codec/ws.rs:244-279 | in an error-free run the stream is the wire form of the accepted frames and the bytes left, no data payload byte is lost, and there are at most half as many frames as bytes |
| Receiver.Receiver.RecvMessageDataframes | src/receiver.rs:105-146 | the two-phase loop gives the frames and leaves the fragments and bytes of `RecvCall`, and keeps the fragment invariant, also after an error |
| Receiver.Receiver.RecvMessage | src/ws/receiver.rs:41-47 | one message, or the error of receiving or assembling it |
| Receiver.Receiver.RecvAll | src/ws/receiver.rs:92-105 | iterating until the first error is the run `RecvRun` |
| Receiver.SyncAgreesWithAsync | src/receiver.rs:105-146 | blocking and incremental runs give the same messages, held fragments and first error, end of input matching `None`, if and only if no header of 2^63 bytes or more is reached |
| Receiver.SyncPanicsIff | src/receiver.rs:105-146 | a blocking run panics, always while allocating, if and only if it meets a header of 2^63 bytes or more |
| Receiver.HugeLengthExample | src/ws/util/header.rs:94-100 | ten bytes on which the incremental receiver waits and the blocking one panics |
| Receiver.NoUnreachableSyncError | src/receiver.rs:105-146 | the blocking receiver does not reach those failures either |
| Outcomes.ReceivedIff | src/codec/ws.rs:244-279 | a frame that completes a message yields m if and only if no reserved bit is set and opcode and payload, held fragments first, denote m; what is held and left afterwards |
| Outcomes.RefusedIff | src/codec/ws.rs:244-279 | given any held fragments, the first frame of any bytes is refused with an error exactly as the table `Refused` says by position: header, panic, role, order of opcodes, reserved bits, content |
| Outcomes.RefusedRun | src/codec/ws.rs:244-279 | such a call and such a run end with that error, and with these fragments held and bytes left: a refused header stays, a refused frame is cut off |
| Outcomes.RefusedBlocking | src/receiver.rs:105-146 | the blocking receiver refuses the same bytes with the same error, unless it panics on the length |
| Outcomes.FailurePoint | src/codec/ws.rs:244-279 | every run that ends in an error had an error-free beginning with nothing left over, after which the next frame is refused with that error |
| Outcomes.HelloExample | src/ws/util/mask.rs:48-56 | the masked "Hello" of section 5.7 of RFC 6455 is decoded |
| RoundTrip.ReasonIff | src/message.rs:411-414 | the two writes of a close payload are in phase exactly when the key halves agree where the reason is long enough to tell |
| RoundTrip.MessageRoundTrip | src/codec/ws.rs:289-296 | a message encoded and then decoded in the opposite role consumes exactly `message_size` bytes and comes back if and only if it survives its key |
| RoundTrip.OrdinaryMessagesSurvive | src/message.rs:403-420 | unmasked messages, and masked ones other than a close with a reason, survive every key |
| RoundTrip.MaskedCloseExample | src/message.rs:411-414 | a close with reason "a" under key 1 0 0 0 does not come back |
| Outcomes.ShortMessage | src/message.rs:17-28 | a short unmasked message is the byte of its kind, its length and its payload, and these bytes are decoded to it |
| Scripts.FoldScript | src/codec/ws.rs:244-279 | the frames of a script, whatever follows them, fold into its messages: a control message where it was sent, a data message at its last fragment |
| Scripts.FoldOpen | src/codec/ws.rs:244-279 | the frames of an unfinished data message are held while the control messages between them are emitted |
| Scripts.ScriptOf | src/codec/ws.rs:244-279 | conversely, any frames that fold without error are the frames of a script, then of an unfinished beginning |
| EndToEnd.ScriptArrives | src/codec/ws.rs:244-279 | every script, with any cutting, interleaving, keys and chunks, arrives as exactly its messages at both kinds of receiver, with nothing left over (sections 5.4 and 5.5 of RFC 6455) |
| EndToEnd.ErrorFreeIff | src/codec/ws.rs:244-279 | a run ends without error, with some messages, held fragments and bytes left, if and only if the stream is the wire form of a script and of the held beginning of a data message with its control messages, then bytes that are not yet a frame, as section 5.2 of RFC 6455 counts them |
| EndToEnd.ErrorIff | src/codec/ws.rs:244-279 | a run ends with an error, with some messages, held fragments and bytes left, if and only if the stream is the wire form of a script and of the beginning of a data message, and then bytes whose first frame is refused with that error |
| EndToEnd.AcceptsExactlyScripts | src/codec/ws.rs:244-279 | in particular, a stream is decoded without error and remainder into some messages if and only if it is the wire form of a script with those messages |
| EndToEnd.EncodedMessagesArrive | src/codec/ws.rs:244-296 | messages encoded one after another, each surviving its key, arrive in order for every split into chunks |

## Left out

- Sockets, TLS, futures, `Framed`, splitting and shutting down: plumbing around the codecs.
- The HTTP handshake and the typed headers: the work is done by libraries that are not part of this model.
- `gen_mask`: the key is a parameter.
- `Message` with its borrowed payload and public fields: the model goes from frames to `OwnedMessage` in one step; a status code on a message that is not a close cannot be expressed.
- `CloseData::into_bytes`, `into_pong`, the `is_ping` family: one-line conversions and tests.
- Input and output errors other than the end of the input and a full buffer, and interrupted writes.
- Allocation failure, and the position that a UTF-8 error carries.
- `Sender` and `Writer`: `send_message` only calls `serialize`.
- Header.ReadHeader: does not say where the reader stands when the input ends inside a header, because `read_exact` leaves that open.
- DataFrames.ReadDataframe: does not say where the reader stands when the input ends inside a header, for the same reason.
- FrameCodec.DataFrameCodec.Decode: the sum of lengths is modelled with the wrap-around of a release build; in a debug build the addition itself panics, for exactly the same inputs.
- MessageCodec.MessageCodec.Decode: the buffer holds at most `isize::MAX` bytes, as every `BytesMut` does.
- EndToEnd.ErrorFreeIff: is stated for a stream that fits in one buffer, because the wire forms of longer scripts cannot be fed at once.
- EndToEnd.ErrorIff: is stated for a stream that fits in one buffer, for the same reason.
- EndToEnd.AcceptsExactlyScripts: is stated for a stream that fits in one buffer, for the same reason.
- What a caller sees that goes on decoding after the first error of a run, apart from the fragment invariant.
