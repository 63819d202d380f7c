# Poseidon core, modelled in Dafny

This project models the core of the Poseidon network-server framework, together with its
marshalling helpers:

- **TCP peer** (`tcp_peer.dfy`, module `Tcp`): the write side of a connection. It has a send
  buffer that `send` fills and the epoll daemon drains through `peekWriteAvail` and
  `notifyWritten`. It also has a shutdown flag that is only ever raised.
- **WebSocket session** (`websocket_session.dfy`, module `WebSocket`): the parser callbacks
  assemble data messages and enqueue data-message and control-message jobs, filed under the
  parent HTTP connection. Running a job calls the application, answers control frames, and turns
  exceptions into shutdowns.
- **HTTP client** (`http_client.dfy`, module `Http`): the response callbacks assemble status line,
  headers, trailers and entity. They enqueue one response job per response and one connect job
  per connection.
- **Player message generator** (`player_message.dfy`, module `PlayerMessage`): the serialiser,
  parser, constructors and setters the macros generate. They work over a field list of varints,
  strings, fixed byte blocks and nested arrays.
- **Configuration file** (`config_file.dfy`, module `Config`, on top of the multimap in
  `optional_map.dfy`): raw and converted lookups.
- **MongoDB object id** (`oid.dfy`, module `MongoOid`) and its `memcmp` ordering.
- **BSON builder** (`bson_builder.dfy`, module `MongoBson`): the element queue and the `build` loop.

The job dispatcher is a ghost sequence of enqueued jobs. What a session, client or peer asks of
its connection (shutdowns, sends, timeouts, wake-ups) is a ghost sequence of effects.

Code outside the core is represented by parameters:

- the application callbacks, the frame and response parsers, and the varint codec;
- `boost::lexical_cast` and the BSON library;
- the `MainConfig` lookups.

Two properties of the varint codec are taken as hypotheses of the message round-trip lemmas:
`Bounded` and `RoundTrips`.

## Model

| member | source | states |
|---|---|---|
| `Tcp.Peeked` | src/main/tcp_peer.cpp:53 | a peek copies at most `size` bytes, and they are the leading bytes of the buffer |
| `Tcp.Discarded` | src/main/tcp_peer.cpp:58 | a discard removes `min(n, size)` bytes |
| `Tcp.PeekThenDiscard` | src/main/tcp_peer.cpp:48-59 | peeking n bytes and then discarding n splits the buffer with nothing lost or reordered |
| `Tcp.DiscardTwice` | src/main/tcp_peer.cpp:56-59 | two successive discards remove as much as one discard of their sum |
| `Tcp.DiscardAfterAppend` | src/main/tcp_peer.cpp:56-70 | bytes sent after a peek are not touched by the discard that follows it: older bytes leave first |
| `Tcp.TcpPeer.constructor` | src/main/tcp_peer.cpp:11-12 | a new peer has an empty buffer and the shutdown flag down |
| `Tcp.TcpPeer.PeekWriteAvail` | src/main/tcp_peer.cpp:48-55 | size 0 yields the pending count; otherwise it yields a prefix of at most `size` bytes, which is the whole buffer when it is shorter; the buffer is unchanged |
| `Tcp.TcpPeer.NotifyWritten` | src/main/tcp_peer.cpp:56-59 | written bytes leave the front of the buffer; the buffer stays equal to accepted-but-unwritten bytes |
| `Tcp.TcpPeer.Send` | src/main/tcp_peer.cpp:61-70 | refused (nothing changes) iff the peer was shut down; otherwise the bytes go at the back and the daemon is woken |
| `Tcp.TcpPeer.Shutdown` | src/main/tcp_peer.cpp:71-81 | raises the flag; closes the socket iff nothing is pending, otherwise wakes the daemon |
| `Tcp.TcpPeer.ForceShutdown` | src/main/tcp_peer.cpp:82-85 | raises the flag and closes the socket whatever is pending |
| `Tcp.ShutdownThenSend` | src/main/tcp_peer.cpp:61-81 | after `shutdown`, every `send` is refused and the buffer keeps its contents |
| `WebSocket.ControlReaction` | src/websocket/session.cpp:174-202 | nothing once the parent is gone; close ⇔ normal-closure shutdown; ping ⇔ one pong with the same payload; pong does nothing; any other opcode ⇔ a 1002 "Invalid opcode" error thrown, with no effect |
| `WebSocket.PerformJob` | src/websocket/session.cpp:34-59 | a vanished session does nothing. Otherwise: the callback's effects come first; return re-arms the keep-alive timeout (default 30000); a WebSocket exception shuts down with its status and message; any other exception forces shutdown and is rethrown iff it came from the data callback; no timeout after an exception |
| `WebSocket.PingIsAnswered` | src/websocket/session.cpp:189-192 | a ping job answers with a pong carrying its payload, then re-arms the timeout |
| `WebSocket.UnknownControlIsProtocolError` | src/websocket/session.cpp:198-200 | an unknown control opcode shuts the session down with status 1002 and is not rethrown |
| `WebSocket.Session.constructor` | src/websocket/session.cpp:113-119 | a non-zero maximum is kept; zero selects the configured value, or 16384 when unset; no opcode, empty payload, zero count |
| `WebSocket.Session.OnReadAvail` | src/websocket/session.cpp:123-135 | counts the bytes. Over the limit: a 1009 shutdown, and the bytes never reach the parser. Otherwise the bytes reach the parser; a WebSocket exception from it becomes a shutdown; other exceptions escape |
| `WebSocket.Session.OnMessageHeader` | src/websocket/session.cpp:137-143 | a new message resets the byte count, records the opcode and empties the payload |
| `WebSocket.Session.OnMessagePayload` | src/websocket/session.cpp:144-150 | the chunk is appended at the end of the payload, whatever the offset |
| `WebSocket.Session.OnMessageEnd` | src/websocket/session.cpp:151-162 | enqueues one data job under the parent, with the opcode and the payload, which is moved out; reports handled |
| `WebSocket.Session.OnControlMessage` | src/websocket/session.cpp:163-172 | enqueues one control job under the parent and leaves the message being assembled alone |
| `WebSocket.DeliverMessage` | src/websocket/session.cpp:137-162 | header, chunks and end yield exactly one job, whose payload is the chunks joined in arrival order |
| `WebSocket.Perform` | src/websocket/session.cpp:31-59 | running a job adds exactly the effects of `PerformJob`; the jobs and the payload being assembled are untouched |
| `Http.PerformJob` | src/http/client.cpp:28-47 | a vanished client does nothing; an exception from the callback forces shutdown and is rethrown, and that is the only effect |
| `Http.Perform` | src/http/client.cpp:25-47 | running a job adds exactly those effects and nothing else changes in the client |
| `Http.WithTrailers` | src/http/client.cpp:137-139 | reference definition of the trailers appended one by one; status code and reason are kept; its headers are stated by `Http.WithTrailersAppends` |
| `Http.WithTrailersAppends` | src/http/client.cpp:137-139 | the trailers are added after the earlier headers, in order; under each name this puts the trailer values last in that name's range (see `Http.TrailerValues`) |
| `Http.TrailerValues` | src/http/client.cpp:137-139 | under each name, the values become the earlier values followed by the trailer values |
| `Http.Client.constructor` | src/http/client.cpp:90-97 | a new client has empty accumulators and no jobs |
| `Http.Client.OnConnect` | src/http/client.cpp:101-110 | one connect job is enqueued under the client, then the low-level client handles the event |
| `Http.Client.OnResponseHeaders` | src/http/client.cpp:112-122 | headers and transfer encoding are replaced and the entity is emptied; the content length is ignored |
| `Http.Client.OnResponseEntity` | src/http/client.cpp:123-130 | the chunk is appended to the entity, whatever the offset or chunking |
| `Http.Client.OnResponseEnd` | src/http/client.cpp:131-147 | one response job is enqueued, with the trailers appended to the headers and with the encoding and entity; all three are moved out; reports handled |
| `OptionalMap.RangeMembers` | src/main/config_file.hpp:42 | the equal range of a key holds exactly the values stored under that key |
| `OptionalMap.Get` | src/main/config_file.hpp:39 | the value of the first entry with the key, or the empty string when there is none |
| `OptionalMap.GetIsFirstOfRange` | src/main/config_file.hpp:38-40 | `get` is the head of the equal range |
| `OptionalMap.Append` | src/http/client.cpp:138 | an inserted value goes last in its key's range; the other keys' ranges are unchanged |
| `OptionalMap.RangeConcat` | src/http/client.cpp:137-139 | the range of a concatenation is the concatenation of the ranges |
| `Config.ConfigFile.Clear` | src/main/config_file.hpp:30-32 | a cleared file is empty |
| `Config.ConfigFile.Swap` | src/main/config_file.hpp:34-36 | the two contents are exchanged, self-swap included |
| `Config.Swap` | src/main/config_file.hpp:107-109 | the free swap exchanges the two contents |
| `Config.EmptyIffNoValues` | src/main/config_file.hpp:27-29 | a file is empty iff no key has a value |
| `Config.ConfigFile.GetRaw` | src/main/config_file.hpp:38-40 | the first value under the key, or empty |
| `Config.ConfigFile.GetRawAll` | src/main/config_file.hpp:41-52 | appends the kept values of the key's range in order, without clearing; returns how many |
| `Config.Selected` | src/main/config_file.hpp:45-50 | reference definition of the kept values of a range: non-empty ones, or all with `includingEmpty`; stated by `Config.SelectedMembers` |
| `Config.ConfigFile.Kept` | src/main/config_file.hpp:42-50 | the kept values of the key's equal range, in order |
| `Config.CastAll` | src/main/config_file.hpp:91-96 | the conversions of the kept values, one per value, in order |
| `Config.SelectedMembers` | src/main/config_file.hpp:45-50 | a value is kept iff it is in the range and is non-empty or empty values are included |
| `Config.SelectedIncludingEmpty` | src/main/config_file.hpp:46 | with empty values included, the whole range is kept |
| `Config.ConfigFile.GetInto` | src/main/config_file.hpp:54-62 | false and untouched iff the raw value is empty; otherwise the converted value, or a thrown bad cast |
| `Config.ConfigFile.GetIntoOr` | src/main/config_file.hpp:63-72 | false with the default iff the raw value is empty; otherwise the converted value, or a thrown bad cast |
| `Config.ConfigFile.GetOr` | src/main/config_file.hpp:79-84 | the default for an empty raw value; otherwise the converted value or a bad cast |
| `Config.ConfigFile.GetValue` | src/main/config_file.hpp:73-78 | as above with the value-initialised default |
| `Config.ConfigFile.GetAll` | src/main/config_file.hpp:86-98 | success ⇔ every kept value converts: all of them are appended in order, and the count is returned. On the first failing value, exactly the values before it have been appended |
| `Config.ConfigFile.GetAllValues` | src/main/config_file.hpp:99-104 | the fresh vector is all converted kept values, or a bad cast iff one fails |
| `MongoOid.Default` | src/mongodb/oid.hpp:31-34 | all twelve bytes are zero |
| `MongoOid.FromBytes` | src/mongodb/oid.hpp:35-40 | all twelve bytes are copied |
| `MongoOid.At` | src/mongodb/oid.hpp:66-68 | reading through `operator[]` yields the stored byte; its interplay with writes is stated by `MongoOid.Set` and `MongoOid.SetAt` |
| `MongoOid.Size` | src/mongodb/oid.hpp:61-63 | the size is twelve, the length of the storage |
| `MongoOid.Set` | src/mongodb/oid.hpp:69-71 | writing through `operator[]` changes that byte only |
| `MongoOid.SetAt` | src/mongodb/oid.hpp:66-71 | writing back the byte read changes nothing |
| `MongoOid.Memcmp` | src/mongodb/oid.hpp:74-91 | the comparison's sign is -1, 0 or 1 |
| `MongoOid.MemcmpZeroIffEqual` | src/mongodb/oid.hpp:74-76 | `memcmp` is zero iff the bytes are equal |
| `MongoOid.MemcmpAntisymmetric` | src/mongodb/oid.hpp:83-85 | swapping the operands negates `memcmp` |
| `MongoOid.MemcmpNegativeIffLexLess` | src/mongodb/oid.hpp:80-82 | `memcmp` is negative iff the first differing unsigned byte is smaller |
| `MongoOid.MemcmpTransitive` | src/mongodb/oid.hpp:80-82 | a negative `memcmp` is transitive |
| `MongoOid.Equal` | src/mongodb/oid.hpp:74-76 | `==` is equality of the ids |
| `MongoOid.NotEqual` | src/mongodb/oid.hpp:77-79 | `!=` is the negation of `==` |
| `MongoOid.Less` | src/mongodb/oid.hpp:80-82 | `<` is lexicographic order on unsigned bytes |
| `MongoOid.Greater` | src/mongodb/oid.hpp:83-85 | `a > b` iff `b < a` |
| `MongoOid.LessEqual` | src/mongodb/oid.hpp:86-88 | `<=` is `<` or equal |
| `MongoOid.GreaterEqual` | src/mongodb/oid.hpp:89-91 | `>=` is reversed `<` or equal |
| `MongoOid.Trichotomy` | src/mongodb/oid.hpp:74-85 | exactly one of `<`, `==`, `>` holds |
| `MongoOid.LessStrictOrder` | src/mongodb/oid.hpp:80-82 | `<` is irreflexive and transitive |
| `PlayerMessage.DefaultValue` | src/main/player/message_generator.hpp:71-75 | a value-initialised field has its field's kind (zero, empty, zero bytes of the declared size, no elements) |
| `PlayerMessage.Defaults` | src/main/player/message_generator.hpp:61-80 | a default-constructed message matches its field list |
| `PlayerMessage.StringLayout` | src/main/player/message_generator.hpp:191-195 | a string is written as its length followed by its bytes |
| `PlayerMessage.EncodeField` | src/main/player/message_generator.hpp:189-208 | reference definition of one field's wire form (varint, length-prefixed string, raw bytes, count-prefixed elements); inverted by `PlayerMessage.FieldRoundTrip` |
| `PlayerMessage.EncodeFields` | src/main/player/message_generator.hpp:210 | the fields' wire forms in declaration order; inverted by `PlayerMessage.FieldsRoundTrip` |
| `PlayerMessage.EncodeElements` | src/main/player/message_generator.hpp:200-207 | the elements' wire forms in index order; inverted by `PlayerMessage.ElementsRoundTrip` |
| `PlayerMessage.DecodeField` | src/main/player/message_generator.hpp:225-266 | reference definition of reading one field over its current value, failing with end-of-stream; stated by `PlayerMessage.FieldReadWell` |
| `PlayerMessage.DecodeFields` | src/main/player/message_generator.hpp:268 | reading the fields in order, stopping at the first failure; stated by `PlayerMessage.FieldsReadWell` |
| `PlayerMessage.DecodeElements` | src/main/player/message_generator.hpp:257-265 | reading `count` fresh elements in order; stated by `PlayerMessage.ElementsReadWell` |
| `PlayerMessage.BytesLayout` | src/main/player/message_generator.hpp:196 | a byte block is written as exactly its bytes |
| `PlayerMessage.FieldReadWell` | src/main/player/message_generator.hpp:225-266 | reading a field consumes a prefix of the input, fails only with end-of-stream, and yields a value of the field's kind |
| `PlayerMessage.FieldsReadWell` | src/main/player/message_generator.hpp:268 | the same for a whole field list |
| `PlayerMessage.ElementsReadWell` | src/main/player/message_generator.hpp:251-266 | reading an array yields exactly the announced number of elements, each matching the element fields |
| `PlayerMessage.Parse` | src/main/player/message_generator.hpp:213-273 | junk-after-packet iff all fields read and bytes remain; end-of-stream iff a field could not be read; success yields values matching the fields |
| `PlayerMessage.RefillDefaults` | src/main/player/message_generator.hpp:112-116 | reading over a default-constructed message stores exactly the values read |
| `PlayerMessage.SignedRoundTrip` | src/main/player/message_generator.hpp:225-227 | a `vint50` field reads back as written |
| `PlayerMessage.UnsignedRoundTrip` | src/main/player/message_generator.hpp:228-230 | a `vuint50` field reads back as written |
| `PlayerMessage.StringRoundTrip` | src/main/player/message_generator.hpp:231-243 | a string field reads back, appended to what the field held |
| `PlayerMessage.BytesRoundTrip` | src/main/player/message_generator.hpp:244-250 | a byte block reads back as written |
| `PlayerMessage.FieldRoundTrip` | src/main/player/message_generator.hpp:189-208 | any field reads back as written, leaving the bytes after it |
| `PlayerMessage.ArrayRoundTrip` | src/main/player/message_generator.hpp:251-266 | an array field reads back as written |
| `PlayerMessage.FieldsRoundTrip` | src/main/player/message_generator.hpp:177-211 | a field list reads back as written |
| `PlayerMessage.ElementsRoundTrip` | src/main/player/message_generator.hpp:257-265 | the elements of an array read back as written, in order |
| `PlayerMessage.FirstElementRoundTrip` | src/main/player/message_generator.hpp:258-264 | a fresh element reads back as the first element written |
| `PlayerMessage.ParseSerialized` | src/main/player/message_generator.hpp:112-116 | building a message from its own serialisation reproduces it |
| `PlayerMessage.TrailingBytesAreJunk` | src/main/player/message_generator.hpp:270-272 | any bytes after a complete message are junk after packet |
| `PlayerMessage.FieldWise` | src/main/player/message_generator.hpp:94-111 | the field-wise constructor yields values matching the fields |
| `PlayerMessage.FieldWiseStoresArgs` | src/main/player/message_generator.hpp:103-107 | integer and string fields hold the arguments in order; byte blocks and arrays are value-initialised |
| `PlayerMessage.WriteField` | src/main/player/message_generator.hpp:189-208 | appends exactly the field's encoding to the buffer |
| `PlayerMessage.WriteElements` | src/main/player/message_generator.hpp:200-207 | appends the elements' encodings in index order |
| `PlayerMessage.WriteFields` | src/main/player/message_generator.hpp:210 | appends the fields' encodings in declaration order |
| `PlayerMessage.ReadField` | src/main/player/message_generator.hpp:225-266 | the byte-by-byte reading loops compute the field decoder |
| `PlayerMessage.ReadFields` | src/main/player/message_generator.hpp:268 | reading fields in order computes the field-list decoder, stopping at the first failure |
| `PlayerMessage.ReadElements` | src/main/player/message_generator.hpp:257-265 | pushing and filling fresh elements computes the element decoder |
| `PlayerMessage.Message.constructor` | src/main/player/message_generator.hpp:61-80 | every field is value-initialised |
| `PlayerMessage.Message.FromFields` | src/main/player/message_generator.hpp:94-111 | scalar fields are taken from the arguments, and the others are value-initialised |
| `PlayerMessage.Message.SetField` | src/main/player/message_generator.hpp:133-157 | a setter changes that one field only, and the message stays well formed |
| `PlayerMessage.SetConforms` | src/main/player/message_generator.hpp:133-157 | replacing one value by one of its field's kind keeps the message well formed |
| `PlayerMessage.Message.WriteTo` | src/main/player/message_generator.hpp:177-211 | appends the message's encoding; the message is unchanged |
| `PlayerMessage.Message.ReadFrom` | src/main/player/message_generator.hpp:213-273 | succeeds iff `Parse` does, and then holds its values and leaves the buffer empty; otherwise reports the same error, and after junk the buffer keeps exactly the unread, non-empty bytes |
| `MongoBson.NarrowingCastInt32` | src/mongodb/bson_builder.cpp:38-45 | throws iff the value exceeds 0x7FFFFFFF; otherwise returns the same value, within 32 bits |
| `MongoBson.Signed64` | src/mongodb/bson_builder.cpp:149 | the cast to `gint64` keeps the bit pattern, and changes the value iff it exceeds INT64_MAX |
| `MongoBson.SignedBitsRoundTrip` | src/mongodb/bson_builder.cpp:59-63 | a signed value loads back unchanged from its bit copy |
| `MongoBson.CString` | src/mongodb/bson_builder.cpp:193 | a C string is the longest prefix without a zero byte |
| `MongoBson.DropLast` | src/mongodb/bson_builder.cpp:218 | `max(size, 1) - 1` bytes: all but the last, or none |
| `MongoBson.Convert` | src/mongodb/bson_builder.cpp:125-233 | the `switch` of `build` for one element: it fails iff a string, blob, object or array payload exceeds 0x7FFFFFFF bytes (array: size too large; others: the narrowing cast); the item keeps the element's name |
| `MongoBson.Step` | src/mongodb/bson_builder.cpp:125-233 | one iteration: a conversion failure is passed on; otherwise a nested document that cannot be created or a refused append fails with that error; success appends exactly the converted item |
| `MongoBson.AppendAll` | src/mongodb/bson_builder.cpp:125-233 | reference definition of the loop, ending at the first failure; stated by `MongoBson.AppendAllInOrder` and `MongoBson.FirstFailureWins` |
| `MongoBson.Built` | src/mongodb/bson_builder.cpp:118-239 | reference definition of `build`: create, append in order, finish; stated by `MongoBson.BuildEmpty` and `MongoBson.FirstFailureWins` |
| `MongoBson.AppendAllConcat` | src/mongodb/bson_builder.cpp:125-233 | the loop over two halves of the queue is the loop over the first, then the second |
| `MongoBson.AppendAllInOrder` | src/mongodb/bson_builder.cpp:125-233 | on success, one item per element is appended, in queue order, each converted from its element |
| `MongoBson.FirstFailureWins` | src/mongodb/bson_builder.cpp:125-232 | `build` fails with the first failing element's error, whatever follows it |
| `MongoBson.BuildEmpty` | src/mongodb/bson_builder.cpp:118-123 | an empty queue builds the finished empty document |
| `MongoBson.OidElement` | src/mongodb/bson_builder.cpp:49-53 | `append_oid` always uses the name `_id` and the object id tag, and passes the twelve bytes |
| `MongoBson.BooleanElement` | src/mongodb/bson_builder.cpp:54-58 | the boolean is appended as given |
| `MongoBson.SignedElement` | src/mongodb/bson_builder.cpp:59-63 | the signed value is appended unchanged |
| `MongoBson.UnsignedElement` | src/mongodb/bson_builder.cpp:64-68 | an unsigned value is appended as int64: unchanged up to INT64_MAX, and wrapped negative above it |
| `MongoBson.DoubleElement` | src/mongodb/bson_builder.cpp:69-73 | the double's bit pattern is appended unchanged |
| `MongoBson.StringElement` | src/mongodb/bson_builder.cpp:74-78 | the string is appended whole iff its size fits in 32 bits |
| `MongoBson.DatetimeElement` | src/mongodb/bson_builder.cpp:79-83 | with the datetime tag, the time reaches the datetime append as int64 |
| `MongoBson.DatetimeKeepsValue` | src/mongodb/bson_builder.cpp:169-174 | distinct times give distinct appends |
| `MongoBson.UuidElement` | src/mongodb/bson_builder.cpp:84-88 | with the uuid tag, the 36 characters become the appended string |
| `MongoBson.BlobElement` | src/mongodb/bson_builder.cpp:89-93 | the blob is appended with the user-defined subtype iff its size fits in 32 bits |
| `MongoBson.RegexElement` | src/mongodb/bson_builder.cpp:94-98 | the pattern is read up to its first zero byte, with no options |
| `MongoBson.ObjectElement` | src/mongodb/bson_builder.cpp:99-107 | the stored object is the nested output minus its last byte, when it has one |
| `MongoBson.ArrayElement` | src/mongodb/bson_builder.cpp:108-116 | the stored array is the nested output minus its last byte, when it has one |
| `MongoBson.ObjectData` | src/mongodb/bson_builder.cpp:199-210 | a nested object reaches the library without the last byte of its output |
| `MongoBson.ArrayDataTrimmedTwice` | src/mongodb/bson_builder.cpp:212-218 | a nested array reaches the library without the last two bytes of its output |
| `MongoBson.DatetimeElementAsWritten` | src/mongodb/bson_builder.cpp:79-83 | as written, a datetime element is tagged as a string with an empty `large` |
| `MongoBson.UuidElementAsWritten` | src/mongodb/bson_builder.cpp:84-88 | as written, a uuid element is tagged as a string with an empty `large` |
| `MongoBson.AsWrittenPayloadIsLost` | src/mongodb/bson_builder.cpp:162-167 | as written, every datetime and uuid is appended as the same empty string |
| `MongoBson.BsonBuilder.AppendOid` | src/mongodb/bson_builder.cpp:49-53 | pushes exactly one element at the back; earlier ones are unchanged |
| `MongoBson.BsonBuilder.AppendBoolean` | src/mongodb/bson_builder.cpp:54-58 | pushes exactly one element at the back |
| `MongoBson.BsonBuilder.AppendSigned` | src/mongodb/bson_builder.cpp:59-63 | pushes exactly one element at the back |
| `MongoBson.BsonBuilder.AppendUnsigned` | src/mongodb/bson_builder.cpp:64-68 | pushes exactly one element at the back |
| `MongoBson.BsonBuilder.AppendDouble` | src/mongodb/bson_builder.cpp:69-73 | pushes exactly one element at the back |
| `MongoBson.BsonBuilder.AppendString` | src/mongodb/bson_builder.cpp:74-78 | pushes exactly one element at the back |
| `MongoBson.BsonBuilder.AppendDatetime` | src/mongodb/bson_builder.cpp:79-83 | pushes exactly one element at the back, with the corrected datetime tag (see Findings; line 80 tags it as a string) |
| `MongoBson.BsonBuilder.AppendUuid` | src/mongodb/bson_builder.cpp:84-88 | pushes exactly one element at the back, with the corrected uuid tag (see Findings; line 85 tags it as a string) |
| `MongoBson.BsonBuilder.AppendBlob` | src/mongodb/bson_builder.cpp:89-93 | pushes exactly one element at the back |
| `MongoBson.BsonBuilder.AppendRegex` | src/mongodb/bson_builder.cpp:94-98 | pushes exactly one element at the back |
| `MongoBson.BsonBuilder.AppendObject` | src/mongodb/bson_builder.cpp:99-107 | builds the nested builder first: its failure is thrown and nothing is pushed; otherwise one object element is pushed |
| `MongoBson.BsonBuilder.AppendArray` | src/mongodb/bson_builder.cpp:108-116 | the same, for an array element |
| `MongoBson.BsonBuilder.Build` | src/mongodb/bson_builder.cpp:118-239 | the loop computes `Built`: elements are appended in queue order, the first failure is thrown, then the document is finished |

## Left out

- The TCP peer's socket set-up in its constructor (`getpeername`, `inet_ntop`, the remote address text) is not modelled; it is operating-system I/O.
- The queue mutex, the atomic shutdown flag and concurrent callers are not modelled. One sequential owner is assumed throughout.
- `Tcp.TcpPeer.PeekWriteAvail`: the hand-over of the lock to the caller is not modelled.
- `OptionalMap` is modelled as one sequence of entries. Only the order of values under one key is the multimap's. The relative order of entries with different keys is the model's own, and no contract depends on it.
- `StreamBuffer::discard` is assumed to stop at the end of the buffer. `StreamBuffer` is not part of this model.
- The job dispatcher is a FIFO sequence of jobs. Its threads, and the weak pointers that make a job find its session or client gone, are the `sessionAlive`, `clientAlive` and `Session?`/`Client?` parameters.
- The `DelayedShutdownGuard` held by each job is not modelled.
- The WebSocket frame parser and the HTTP response parser are outside the model. Their callbacks are the session and client methods, called in whatever order the parser chooses.
- `WebSocket.Session.OnReadAvail` feeds the parser in one effect. The parser's callbacks during that call are separate method calls, not interleaved with it.
- `WebSocket.Session.OnReadAvail`: the 64-bit byte counter is unbounded here, so its wrap-around after 2^64 bytes is not modelled.
- `on_sync_data_message`, `on_sync_connect` and `on_sync_response` are the application's. Only how they end matters: the `app` parameter. The default `on_sync_connect` only logs.
- The value of `OP_INVALID` is taken as -1. The opcode header that defines it is not part of this model; the model only needs it to differ from every real opcode.
- `on_sync_control_message` is virtual. The model describes the base class's version, not an override.
- `MainConfig` values are `Option<nat>` parameters, with the defaults the source passes.
- Objects left behind by a move (payload, entity, headers, transfer encoding) are modelled as empty. `Http.MovedFrom` keeps the status code and empties the reason and headers.
- The varint codec is not part of this model. Its encoders and decoders are function parameters. The round-trip lemmas assume that the decoders read no further than their input (`Bounded`) and invert the encoders on the ranges the names `vint50`/`vuint50` announce (`RoundTrips`).
- `PlayerMessage.Message.ReadFrom`: on a parse error the source has already overwritten the fields read before the error. The model leaves the message as it was and only reports the error.
- `PlayerMessage.Message.ReadFrom`: after end-of-stream the source has drained part of the caller's buffer. How much depends on the field that ran out, and the model states nothing about the returned buffer in that case.
- The field getters of generated messages return references to the fields, and are not modelled. The `operator StreamBuffer()` conversion is `WriteTo` on an empty buffer. The message id is not modelled.
- In `message_generator.hpp`, line 196 uses `cur_name_` where `cur_.name_` is meant. Line 248 writes `name_[i_]` where `cur_.name_[i_]` is meant. As written, the first does not compile and the second names the outer message's member inside an array element. Both are modelled as intended: a byte block is written from, and read into, the current message or element.
- C++ default arguments are not modelled as defaults: callers of `getRawAll` and `getAll` pass `includingEmpty` explicitly. For `get` with a default, the default already has the result type, so the `static_cast<T>` conversion of a default of another type is not modelled.
- `boost::lexical_cast` is a parameter `cast`. `None` stands for `bad_lexical_cast`.
- Loading a configuration file from disk (`load`, `loadNoThrow`) is not modelled; it is I/O.
- `Oid::random` is not modelled: it uses the clock, the process id and a counter. Neither are the pointer accessors `begin`, `end` and `data`, nor the byte layout (time, machine, process, counter) of the storage union.
- The BSON library (`bson_new`, `bson_new_from_data`, `bson_append_*`, `bson_finish`, `bson_data`, `bson_size`) is not part of this model. Whether each call succeeds, and the finished bytes, are the functions of a `Libbson` value.
- A double is carried as its 64-bit pattern. `Uuid::to_string` is its 36-character result.
- The `default:` branch of `build` (an unknown tag) is not modelled. The tag type here has exactly the twelve tags, so no element can reach it. The header that declares the tags is not part of this model.
- `MongoBson.BsonBuilder.AppendDatetime` does not push what line 80 pushes. The source tags the element as a string with an empty payload, so `build` appends an empty string. The model pushes the corrected datetime element, so `MongoBson.BsonBuilder.Build` appends the time. `MongoBson.DatetimeElementAsWritten` models the source as written.
- `MongoBson.BsonBuilder.AppendUuid` does not push what line 85 pushes either. The source tags the element as a string with an empty payload. The model pushes the corrected uuid element, so `build` appends the 36 characters. `MongoBson.UuidElementAsWritten` models the source as written.
- The `BsonBuilder` constructor and `clear` live in the header, which is not part of this model. The model's builder starts with an empty queue.
- The array branch of `build` hands the library one byte less than the object branch does. `ArrayDataTrimmedTwice` states this as written; whether the library expects it is not part of this model.

## Findings

| source | as written | input that shows it | evidently intended | confidence | as-written member | corrected member |
|---|---|---|---|---|---|---|
| src/mongodb/bson_builder.cpp:79-83 | `append_datetime` tags its element `T_STRING` while storing the time in `small`; `build`'s string branch then appends the empty `large` | `append_datetime("t", 0)` and `append_datetime("t", 1)` both build the string element `t` = "" | tag `T_DATETIME`, so the time reaches `bson_append_utc_datetime` | high (not executed) | `MongoBson.AsWrittenPayloadIsLost` | `MongoBson.DatetimeKeepsValue` |
| src/mongodb/bson_builder.cpp:84-88 | `append_uuid` tags its element `T_STRING` while writing the uuid text into `small`; `build` appends the empty `large` | any `append_uuid("u", id)` builds the string element `u` = "" | tag `T_UUID`, so the 36 characters reach `bson_append_string` | high (not executed) | `MongoBson.UuidElementAsWritten` | `MongoBson.UuidElement` |
