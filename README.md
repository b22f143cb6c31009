# dashsrv core in Dafny

dashsrv is a small home-server dashboard written in C++. This project models its core: the Minecraft "Server List Ping" status client, the HTTP GET client, the TTL caches, the routes that answer from those caches, the request and response helpers of the HTTP server, the Minecraft colour-code translator and the configuration loader. It proves properties of that model.

Modules, one per source file:

- `MCPacket` (source/Minecraft/MCPacket.cpp) holds:
  - VarInt and VarLong written as 7-bit groups;
  - the two readers, which stop after 5 or 10 bytes;
  - big-endian shorts, ints and longs.
- `Status` (source/Minecraft/Status.cpp) holds:
  - the handshake, status-request and ping packets, each framed by its length;
  - the reading of the status and pong responses into an `MCStatus`.
- `MCQuery` (source/Minecraft/MCQuery.cpp) holds the event handler of the query transport and its poll loop.
- `Net` holds what the two poll loops share:
  - the 3000 ms deadline;
  - unsigned clock arithmetic;
  - the events a handler sees;
  - the library's connection.
- `MGClient` (source/MGClient.cpp) holds `Dashcli::Get`:
  - URL normalisation;
  - the event handler;
  - the deadline loop;
  - the choice of `Reason`.
- `CacheContainer` (include/Server/CacheContainer.h) holds the TTL cache cell.
- `Routes` (source/Server/Routes.cpp) holds:
  - `handleRoutes` with its four cache-gated `/api` handlers, the pages and the 404 fallback;
  - `GetHealthReport` and its peer loop;
  - `GetJellyfinStatus`;
  - `HealthReportToJSON`.
- `Routing` (include/Server/Core/Routing.h) holds `starts_with`, the route-prefix stack, and the `ROUTE` and `GET` macros.
- `Http` (source/Server/Core/HTTP.cpp) holds `parseHttpMethod` and `parseQueryParams`.
- `Server` (source/Server/Core/Server.cpp) holds:
  - the request getters;
  - `setHeader`, `setCookie` and `setBody`;
  - `respondFile` and `respondDirectory`;
  - `constructResponseHeaders`;
  - the Cookie and Host splitting of the request handler.
- `MCString` (source/Minecraft/String.cpp) holds `EscapeToAnsi`.
- `Config` (source/Server/Config.cpp) holds the `DashsrvConfig` constructor over a small JSON datatype.
- `Ints` and `Wrappers` hold fixed-width integers and `Option`/`Result`.

What is not modelled directly becomes an input:

- The clock is a parameter, and each reading the code takes is an input of its own: `now`, a timestamp, a `Routes.Clock` holding the readings one request takes, or a list of `Round`s, each a clock reading followed by the events of one poll.
- Sockets are sequences of `NetEvent`s.
- The JSON parser is an oracle: `StatusDoc`, `JellyfinJson`, `PeerOutcome`, `Parsed`.
- The file system is two functions: `isDir`, and `files`, which gives a regular file's contents.
- mDNS lookup is a function.
- The JSON renderers of single statuses are functions.

Behaviour of the code that the model keeps as written:

- A Minecraft query that reaches the deadline is still closed when its manager is freed, so it always ends with `Done` set, and with `Success` set when any byte arrived (`MCQuery.QueryEndsDone`).
- The pong id is checked before the status id.
- A peer reply the JSON parser discards ends the peer loop (`break`) instead of moving on to the next peer (`Routes.DiscardedEndsReport`).
- A successful status keeps the error text "No error" instead of clearing it.

## Model

| member | source | states |
|---|---|---|
| MCPacket.Septets | source/Minecraft/MCPacket.cpp:11-21 | the writers' loop yields the 7-bit groups of the cast value, least significant first |
| MCPacket.GroupsShape | source/Minecraft/MCPacket.cpp:14-20 | every group except the last has 0x80 set; the last does not |
| MCPacket.GroupsAtMost | source/Minecraft/MCPacket.cpp:13-21 | a value below 128^n takes at most n groups |
| MCPacket.GroupsAtLeast | source/Minecraft/MCPacket.cpp:13-21 | a value of at least 128^(n-1) takes at least n groups |
| MCPacket.VarIntBytes | source/Minecraft/MCPacket.cpp:10-24 | a VarInt encoding is continuation-shaped and 1 to 5 bytes long; it is the single byte v exactly when 0 <= v < 128; a negative value takes all 5 bytes |
| MCPacket.VarLongBytes | source/Minecraft/MCPacket.cpp:30-45 | the same for VarLong, with 1 to 10 bytes and 10 for a negative value |
| MCPacket.WriteVarIntAt | source/Minecraft/MCPacket.cpp:10-24 | inserting at position `it` keeps the bytes before and after it, in order, around the encoding |
| MCPacket.WriteVarInt | source/Minecraft/MCPacket.cpp:26-28 | appending puts the encoding after the existing bytes |
| MCPacket.WriteVarLongAt | source/Minecraft/MCPacket.cpp:30-45 | insertion of a VarLong keeps the bytes around it |
| MCPacket.WriteVarLong | source/Minecraft/MCPacket.cpp:47-49 | appending a VarLong |
| MCPacket.ReadGroups | source/Minecraft/MCPacket.cpp:56-64 | the readers' loop computes the value of the groups at the cursor, stopping at a clear continuation bit or at the width |
| MCPacket.Gather | source/Minecraft/MCPacket.cpp:56-64 | the groups at a cursor, stopping at a clear continuation bit or at the width (see `GatherConsumes` and `GatherGroups`) |
| MCPacket.DecodeVarInt | source/Minecraft/MCPacket.cpp:51-67 | the low 32 bits of the groups, read as signed (see `VarIntRoundTrip` and `VarIntStopsAtFive`) |
| MCPacket.ReadVarInt | source/Minecraft/MCPacket.cpp:51-67 | the read agrees with the decoder and advances the cursor by 1 to 5 bytes; running past the buffer is an explicit failure |
| MCPacket.ReadVarLong | source/Minecraft/MCPacket.cpp:69-86 | the same with at most 10 bytes |
| MCPacket.GatherConsumes | source/Minecraft/MCPacket.cpp:56-64 | a read consumes at least one byte and at most one per 7 bits of width |
| MCPacket.GatherGroups | source/Minecraft/MCPacket.cpp:56-64 | decoding the groups of u, wherever they sit, gives u and ends just after them |
| MCPacket.VarIntRoundTrip | source/Minecraft/MCPacket.cpp:10-24 | `ReadVarInt` inverts `WriteVarInt` for every int32, with any bytes before and after, and the cursor moves by the encoded length |
| MCPacket.VarLongRoundTrip | source/Minecraft/MCPacket.cpp:30-86 | `ReadVarLong` inverts `WriteVarLong` for every int64 |
| MCPacket.VarIntStopsAtFive | source/Minecraft/MCPacket.cpp:62-63 | five bytes that all carry the continuation bit still end the read after five bytes |
| MCPacket.BigEndianRoundTrip | source/Minecraft/MCPacket.cpp:88-141 | reading n big-endian bytes gives back every value below 2^(8n) |
| MCPacket.BigEndianAt | source/Minecraft/MCPacket.cpp:96-99 | byte k of the big-endian form is `(u >> 8(n-1-k)) & 0xFF` |
| MCPacket.WriteShort | source/Minecraft/MCPacket.cpp:88-92 | two bytes of the unsigned pattern, most significant first, are appended |
| MCPacket.WriteInt | source/Minecraft/MCPacket.cpp:94-100 | four bytes are appended, most significant first |
| MCPacket.WriteLong | source/Minecraft/MCPacket.cpp:102-112 | eight bytes are appended, most significant first |
| MCPacket.FromBigEndianBound | source/Minecraft/MCPacket.cpp:114-141 | n bytes read big-endian stay below 2^(8n) |
| MCPacket.ReadShort | source/Minecraft/MCPacket.cpp:114-119 | the value is there exactly when two bytes remain; its unsigned pattern is their big-endian value |
| MCPacket.ReadInt | source/Minecraft/MCPacket.cpp:121-128 | the same with four bytes |
| MCPacket.ReadLong | source/Minecraft/MCPacket.cpp:130-141 | the same with eight bytes |
| MCPacket.LongBytes | source/Minecraft/MCPacket.cpp:130-141 | the eight shifted bytes that are ORed together sum to the big-endian value, which is below 2^64 |
| MCPacket.ShortRoundTrip | source/Minecraft/MCPacket.cpp:88-119 | `ReadShort` inverts `WriteShort` wherever the field sits |
| MCPacket.IntRoundTrip | source/Minecraft/MCPacket.cpp:94-128 | `ReadInt` inverts `WriteInt` |
| MCPacket.LongRoundTrip | source/Minecraft/MCPacket.cpp:102-141 | `ReadLong` inverts `WriteLong` |
| Ints.SubU64 | include/Server/CacheContainer.h:16 | unsigned 64-bit subtraction is the difference, plus 2^64 when it would go negative |
| Ints.Signed32RoundTrip | source/Minecraft/MCPacket.cpp:12 | the signed reading of an int32's unsigned bit pattern is the int32 |
| Ints.Signed64RoundTrip | source/Minecraft/MCPacket.cpp:32 | the same for int64 |
| Status.BuildHandshakePacket | source/Minecraft/Status.cpp:104-118 | the packet is the handshake payload in order (0x00, the protocol, the address length and bytes, the big-endian port, intent 1), framed by its length |
| Status.HandshakePayload | source/Minecraft/Status.cpp:104-113 | the handshake fields in order (no contract of its own; see `HandshakeLengthPrefix`) |
| Status.BuildStatusRequestPacket | source/Minecraft/Status.cpp:120-129 | the packet is exactly [0x01, 0x00] |
| Status.BuildPingRequestPacket | source/Minecraft/Status.cpp:131-142 | the packet has 10 bytes: 0x09, 0x01, then the timestamp big-endian, which reads back as the timestamp |
| Status.FrameLengthPrefix | source/Minecraft/Status.cpp:114 | the leading VarInt of a framed packet decodes to the number of bytes after it |
| Status.HandshakeLengthPrefix | source/Minecraft/Status.cpp:108-114 | the handshake's leading VarInt counts exactly the bytes that follow it |
| Status.Fill | source/Minecraft/Status.cpp:74-97 | online exactly when the document was parsed; the error stays unless it was discarded, which gives the corrupt-JSON error; the ping time is kept |
| Status.Interpret | source/Minecraft/Status.cpp:36-100 | no transport success gives offline with "Server failed to respond or denied the request"; a wrong pong id gives the pong error; a right pong id with a wrong status id gives the status error; online exactly when the error is "No error" |
| Status.ReadCursors | source/Minecraft/Status.cpp:44-55 | the five VarInt reads find the layout of the two responses, or fail when a read runs past the bytes |
| Status.ReadLayout | source/Minecraft/Status.cpp:44-55 | the five VarInt reads of the query (no contract of its own; see `ReadCursors` and `ReplyLayout`) |
| Status.FillStatus | source/Minecraft/Status.cpp:74-97 | the fields present in the document are copied in one by one |
| Status.ReadResponse | source/Minecraft/Status.cpp:36-100 | the parsing half of `QueryServer` computes `Interpret` |
| Status.QueryServer | source/Minecraft/Status.cpp:22-101 | the three packets are sent in order on connect, and the status is the reading of what the connection received once the poll loop and the teardown are over |
| Status.StatusReads | source/Minecraft/Status.cpp:49-53 | on a well-formed reply the first three reads give the status length, the status id 0 and the JSON length |
| Status.PongReads | source/Minecraft/Status.cpp:54-55 | on a well-formed reply the reads at the boundary give the pong length and the pong id |
| Status.ReplyLayout | source/Minecraft/Status.cpp:44-71 | a well-formed reply has both ids right, its JSON text from the end of the JSON length to the boundary, and its timestamp after the pong id |
| Status.ReplyRoundTrip | source/Minecraft/Status.cpp:67-97 | a well-formed reply gives `now - timestamp` as the ping time and the parse of exactly the JSON text |
| Status.ReplyOnlineIffParsed | source/Minecraft/Status.cpp:67-97 | for a well-formed reply, online exactly when the parse is not discarded, otherwise the corrupt-JSON error; the ping is `now - timestamp` |
| Status.OpenSocketReplyIsRead | source/Minecraft/Status.cpp:36-97 | a well-formed reply still sitting on an open socket at the deadline is read after the teardown: the ping is `now - timestamp` and the fields are those of its JSON text |
| MCQuery.MCQueryState.constructor | include/Minecraft/MCQuery.h:13-20 | a new query has no server, no callback, nothing received, and Done and Success false |
| MCQuery.MCQueryState.HandleEvent | source/Minecraft/MCQuery.cpp:6-37 | connect sends the callback's buffers; read appends the chunk and empties the receive buffer; close sets Done, and sets Success when bytes were received |
| MCQuery.MCQueryState.PollOnce | source/Minecraft/MCQuery.cpp:55-57 | one poll runs the handler over the delivered events in order |
| MCQuery.MCQueryState.QueryMinecraft | source/Minecraft/MCQuery.cpp:40-60 | the server and callback are stored before connecting; the state ends as the poll loop leaves it, followed by the close event that freeing the manager raises when the query is not yet done |
| MCQuery.FlattenAppend | source/Minecraft/MCQuery.cpp:16-20 | buffers sent one after another reach the wire concatenated |
| MCQuery.ConnectSendsInOrder | source/Minecraft/MCQuery.cpp:10-21 | on connect the three packets reach the wire whole and in order |
| MCQuery.RecvIsChunks | source/Minecraft/MCQuery.cpp:23-27 | `Recv` is every chunk read, concatenated in arrival order |
| MCQuery.FlagsStaySet | source/Minecraft/MCQuery.cpp:29-34 | once set, Done and Success are never reset |
| MCQuery.CloseDecides | source/Minecraft/MCQuery.cpp:29-34 | after a close, Done holds, and Success holds exactly when it held before or bytes were received |
| MCQuery.PollKeepsSound | source/Minecraft/MCQuery.cpp:30-32 | Success implies that at least one byte was received, through the whole loop |
| MCQuery.QueryStops | source/Minecraft/MCQuery.cpp:52-57 | the loop stops when Done holds or at the first clock reading 3000 ms after the start |
| MCQuery.Teardown | source/Minecraft/MCQuery.cpp:29-34 | the state after `mg_mgr_free`: a query not yet done sees one close event |
| MCQuery.TeardownDecides | source/Minecraft/MCQuery.cpp:29-34 | after the teardown Done holds and the bytes are unchanged; a done query is left as it was; otherwise Success holds exactly when it held before or bytes were received |
| MCQuery.QueryEndsDone | source/Minecraft/MCQuery.cpp:40-60 | every query ends done, with Success implying received bytes; one the deadline cut short succeeds exactly when some bytes arrived |
| Net.Elapsed | source/Minecraft/MCQuery.cpp:55 | the elapsed time is unsigned: an earlier clock wraps to a huge value |
| Net.Poll | source/Minecraft/MCQuery.cpp:52-57 | the poll loop over clock readings and events (no contract of its own; see `PollReachesDeadline` and `PollKeeps`) |
| Net.PollReachesDeadline | source/Minecraft/MCQuery.cpp:52-57 | with a clock that passes the deadline, the loop stops within the readings, either done or at the first reading past the deadline |
| Net.PollKeeps | source/Minecraft/MCQuery.cpp:55-57 | an invariant of every handler step holds where the poll loop ends |
| Net.RunKeeps | source/Minecraft/MCQuery.cpp:55-57 | an invariant of every handler step holds after any run of events |
| Net.Connection.constructor | source/Minecraft/MCQuery.cpp:48-50 | a new connection has sent and received nothing and asked for no URL |
| Net.Connection.Receive | source/Minecraft/MCQuery.cpp:24-25 | the library appends a chunk to the receive buffer before raising the read event |
| MGClient.AsWrittenAlwaysPrefixes | source/MGClient.cpp:39-41 | as written, every URL gets "http://" in front |
| MGClient.AsWrittenDoublesScheme | source/MGClient.cpp:39-41 | as written, "http://x" becomes "http://http://x" |
| MGClient.NormaliseAsWritten | source/MGClient.cpp:39-41 | the URL as the code prefixes it (no contract of its own; see `AsWrittenAlwaysPrefixes`) |
| MGClient.NormaliseUrl | source/MGClient.cpp:39-41 | the corrected URL always has a scheme, and a URL that has one is kept |
| MGClient.NormaliseIdempotent | source/MGClient.cpp:39-41 | normalising twice is normalising once |
| MGClient.NormaliseAgreesWithoutScheme | source/MGClient.cpp:39-41 | on a URL with no scheme, the corrected and the as-written forms agree |
| MGClient.MGResponse.HandleEvent | source/MGClient.cpp:9-32 | connect asks for the URL; an HTTP message appends its body and sets Success and Done; other events change nothing |
| MGClient.MGResponse.PollOnce | source/MGClient.cpp:55-57 | one poll runs the handler over the events in order |
| MGClient.Get | source/MGClient.cpp:36-67 | the URL is always "http://" in front of the caller's, as the code prefixes it; Success starts false, the state is what the poll loop leaves, and Reason is "Timed out" exactly when Success is false and 3000 ms have passed at the last reading, else "Connection closed" |
| MGClient.RecvIsBodies | source/MGClient.cpp:24-29 | `Recv` is the message bodies concatenated in order |
| MGClient.SuccessIffMessage | source/MGClient.cpp:24-29 | after a run of events Success holds exactly when it held before or some HTTP message arrived |
| MGClient.RequestsOnlyUrl | source/MGClient.cpp:13-22 | the connection asks only for the client's URL, exactly once per connect event, after the earlier requests |
| MGClient.PollPaired | source/MGClient.cpp:43-57 | from Success false, the loop ends with Done equal to Success |
| MGClient.GetStopsAtDeadline | source/MGClient.cpp:52-57 | the loop stops at the first reading past the deadline unless a message arrived before |
| MGClient.MGResponse.constructor | include/MGClient.h:8-18 | the struct's defaults: Success true, Done false, everything empty |
| CacheContainer.Container.constructor | include/Server/CacheContainer.h:11-13 | a new cell was last fetched at time 0 |
| CacheContainer.Container.Cache | include/Server/CacheContainer.h:19-23 | the value and the clock are stored, and the stored value is returned |
| CacheContainer.Container.NeedsFetch | include/Server/CacheContainer.h:15-17 | the unsigned 64-bit time since the last fetch exceeds the TTL, strictly (no contract of its own; see `FreshWithinTtl` and `EarlierClockIsStale`) |
| CacheContainer.Container.Get | include/Server/CacheContainer.h:25-27 | the stored value (no contract of its own) |
| CacheContainer.Container.GetTiming | include/Server/CacheContainer.h:29-31 | the stamp of the last store (no contract of its own) |
| CacheContainer.FreshWithinTtl | include/Server/CacheContainer.h:15-17 | for a clock that has not gone back, a fetch is needed exactly when more than the TTL has passed |
| CacheContainer.EarlierClockIsStale | include/Server/CacheContainer.h:16 | a clock earlier than the stamp wraps and reports that a fetch is needed |
| Routes.Refresh | source/Server/Routes.cpp:75-80 | the fetcher's result is stored exactly when the cache is stale at the first reading, stamped with the later reading `Cache` takes, and `cached` is false exactly then |
| Routes.Services.constructor | source/Server/Routes.cpp:48-51 | the four caches have TTLs 10000, 30000, 5000 and 5000 and were never fetched; the prefix stack is empty |
| Routes.Services.ServeJson | source/Server/Routes.cpp:74-88 | an `/api` handler re-caches only when stale, stamping with its own later reading, and answers 200 JSON rendered from the cache with its `cached` flag and timing |
| Routes.Services.ServeStatus | source/Server/Routes.cpp:106-120 | `/api/status` rebuilds the health report only when the mesh cache is stale, refreshing the hardware cache inside only when that one is stale too, each stamped with its own reading; it answers the report joined as JSON |
| Routes.Services.ServeApi | source/Server/Routes.cpp:73-137 | each of the four GET routes under "/api" is answered from its own cache; `/api/status` gives the joined report and may refresh the hardware cache; every other cache stays as it was; a request for no API route leaves the response and the caches untouched |
| Routes.Services.PageGuardsFire | source/Server/Routes.cpp:139-150 | the page guard that holds answers with its file and the content type for its suffix, with a 403 or 404 text of its own; the dashboard also gets its CSP header and every other request keeps the headers; a request no guard takes is left as it was |
| Routes.Services.ServePages | source/Server/Routes.cpp:139-156 | a request for no API route gets the status, body and content type of its page, the static file as the code serves it, a plain-text 403, or the 404 page; the headers change only by the dashboard's CSP |
| Routes.Services.NotFoundFallback | source/Server/Routes.cpp:152-156 | a status of 0 or 404 becomes a handled 404 with the 404 page and its content type, or the plain 404 text when that page cannot be opened; any other response is kept |
| Routes.Services.HandleRoutes | source/Server/Routes.cpp:71-159 | every request is handled: API routes from their caches, with only the caches their route touches changed; pages and static files with their status, body and content type as the code serves them; everything else with the 404 page; headers change only by the dashboard's CSP, cookies and keep-alive never; the prefix stack ends empty |
| Routes.Services.GetHealthReport | source/Server/Routes.cpp:232-292 | the hardware cache is refreshed first when stale, stamped with its own reading; the report is its value followed by the peer records |
| Routes.IsSelf | source/Server/Routes.cpp:242-248 | the scan finds the peer exactly when it is one of this host's addresses |
| Routes.CollectPeers | source/Server/Routes.cpp:238-289 | the loop's records are this host's status followed by `PeerRecords` |
| Routes.RecordsFromPeers | source/Server/Routes.cpp:252-288 | every record comes from a peer that is not this host: offline with IPs exactly [peer], or online, not current, with the time the request took |
| Routes.OneRecordPerPeer | source/Server/Routes.cpp:241-289 | when no other peer's reply is discarded, there is one record per peer that is not this host, in peer order: the record at the count of other peers before peer j is peer j's own |
| Routes.DiscardedEndsReport | source/Server/Routes.cpp:266-270 | the first discarded reply adds an offline record and the remaining peers get none |
| Routes.SelfPeerSkipped | source/Server/Routes.cpp:241-250 | a peer that is one of this host's addresses gets no record, wherever it sits |
| Routes.PeerRecords | source/Server/Routes.cpp:241-289 | the records of the peer loop (no contract of its own; see `RecordsFromPeers`, `OneRecordPerPeer`, `DiscardedEndsReport` and `SelfPeerSkipped`) |
| Routes.RecordOf | source/Server/Routes.cpp:252-286 | the record of one peer that is not this host: the answer online and not current with the time the request took, else offline with only its address (no contract of its own; see `OneRecordPerPeer`) |
| Routes.GetJellyfinStatus | source/Server/Routes.cpp:161-206 | the info is asked for only after the health request succeeds; online exactly when both succeed and every field is there, in which case every field is copied |
| Routes.DecimalRoundTrip | source/Server/Routes.cpp:379 | the decimal text of the cache timing is all digits, has no leading zero, and reads back as the number |
| Routes.HealthReportToJSON | source/Server/Routes.cpp:371-379 | the loop builds `ReportJson`: the entries joined with "," and no leading comma, inside the object that carries `cached` and the mesh timing |
| Routes.ApiDispatch | source/Server/Routes.cpp:73-137 | the API branch is either none or one of the four API routes |
| Routes.PageDispatch | source/Server/Routes.cpp:139-150 | the page branch is never an API route |
| Routes.Dispatch | source/Server/Routes.cpp:71-150 | the branch of `handleRoutes` that answers a request (no contract of its own; see `ApiRoutes`, `ApiGuards` and `PageGuards`) |
| Routes.ApiRoutes | source/Server/Routes.cpp:73-137 | the four API routes are exactly GET on "/api/mc", "/api/jellyfin", "/api/status" and "/api/local" |
| Routes.ApiGuards | source/Server/Routes.cpp:74-122 | each GET guard inside `ROUTE("/api")` holds exactly when the request is dispatched to its route |
| Routes.ApiBranch | source/Server/Routes.cpp:73-74 | inside `ROUTE("/api")`, a GET guard holds exactly for GET on "/api" followed by the route |
| Routes.PageGuards | source/Server/Routes.cpp:139-150 | each top-level guard holds exactly when the request is dispatched to its page |
| Routes.OnlyGetIsRouted | source/Server/Routes.cpp:71-150 | a method other than GET reaches only the static files |
| Routes.PageResponse | source/Server/Routes.cpp:139-156 | a page answer is 200, 403 or 404; 403, in plain text, exactly for a URL the code refuses, as written; every 404 is the 404 page with its content type; the dashboard is served as HTML |
| Routing.StartsWith | include/Server/Core/Routing.h:15-17 | `starts_with(s, p)` holds exactly when p is no longer than s and is its first characters |
| Routing.ConcatAppend | include/Server/Core/Routing.h:8-13 | the prefix of two runs of entries is the two prefixes concatenated |
| Routing.PushExtends | include/Server/Core/Routing.h:19-21 | pushing an entry extends the prefix by exactly that entry |
| Routing.GuardWithinPrefix | include/Server/Core/Routing.h:23 | a GET guard holds exactly for the method, a path under the prefix, and the route after it |
| Routing.GuardsExclusive | include/Server/Core/Routing.h:23-31 | two guards with different routes under one prefix never both hold |
| Routing.RouteStack.constructor | include/Server/Core/Routing.h:6 | the prefix stack starts empty |
| Routing.RouteStack.Prefix | include/Server/Core/Routing.h:8-13 | the prefix is the stack entries joined in push order |
| Routing.RouteStack.Route | include/Server/Core/Routing.h:19-21 | when the path starts with the current prefix followed by the new one, the entry is pushed and the body runs once per entry then on the stack, each run seeing the prefix one entry shorter than the last, until the stack is empty; otherwise nothing happens |
| Http.ParseHttpMethod | source/Server/Core/HTTP.cpp:6-26 | a non-GET result means the name matched that method exactly; a name matching no method gives GET |
| Http.ParseMethodName | source/Server/Core/HTTP.cpp:6-26 | each of the nine upper-case names parses to its method |
| Http.IndexOf | source/Server/Core/HTTP.cpp:33 | `find` returns a position at or after the start, which holds the character unless nothing was found |
| Http.IndexOfFound | source/Server/Core/HTTP.cpp:33 | a found position means the character occurs in the text |
| Http.IndexOfFirst | source/Server/Core/HTTP.cpp:33 | nothing before the found position matches |
| Http.IndexOfIn | source/Server/Core/HTTP.cpp:33-34 | `find` from the start misses exactly when the character is absent |
| Http.SplitTokens | source/Server/Core/HTTP.cpp:32 | no `getline` token holds the delimiter |
| Http.SplitJoin | source/Server/Core/HTTP.cpp:32 | joining the tokens gives back the text, less one trailing delimiter |
| Http.Split | source/Server/Core/HTTP.cpp:32 | the `getline` tokens (no contract of its own; see `SplitTokens` and `SplitJoin`) |
| Http.KeyValueSplit | source/Server/Core/HTTP.cpp:33-37 | a token with '=' is cut at its first '=': the key has no '=', and key "=" value is the token |
| Http.KeyWithoutValue | source/Server/Core/HTTP.cpp:38-40 | a token without '=' is a key with the empty value |
| Http.FillKeys | source/Server/Core/HTTP.cpp:32-41 | the keys filled are those already there and the keys of the tokens |
| Http.FillOtherKeys | source/Server/Core/HTTP.cpp:37-40 | tokens with other keys leave a key's value alone |
| Http.LaterTokenWins | source/Server/Core/HTTP.cpp:37-40 | a key ends with the value of the last token that has it |
| Http.SplitKeyValue | source/Server/Core/HTTP.cpp:33-40 | one token is cut into its key and value |
| Http.ParseQueryParams | source/Server/Core/HTTP.cpp:28-43 | the loop fills the map that the tokens fill in order |
| Http.QueryParams | source/Server/Core/HTTP.cpp:28-43 | the map the tokens fill in order (no contract of its own; see `FillKeys` and `LaterTokenWins`) |
| Server.QueryParamLookup | source/Server/Core/Server.cpp:212-214 | a parameter reads back as the value of the last token with its key |
| Server.QueryParamAbsent | source/Server/Core/Server.cpp:212-214 | a key that no token has reads as "" |
| Server.GetHeader | source/Server/Core/Server.cpp:208-210 | the header under the key, or "" (no contract of its own) |
| Server.GetQueryParam | source/Server/Core/Server.cpp:212-214 | the parameter under the key, or "" (see `QueryParamLookup` and `QueryParamAbsent`) |
| Server.GetCookie | source/Server/Core/Server.cpp:216-218 | the cookie under the key, or "" (see `LaterCookieWins`) |
| Server.KnownSuffixes | source/Server/Core/Server.cpp:288-299 | each known suffix gives its content type, and both JPEG spellings give image/jpeg |
| Server.UnknownSuffix | source/Server/Core/Server.cpp:300-301 | any other name is served as application/octet-stream |
| Server.PathJoinKeepsBase | source/Server/Core/Server.cpp:257 | joining a relative part keeps the directory in front |
| Server.AsWrittenEscapesDirectory | source/Server/Core/Server.cpp:244-270 | as written, "/static//etc/passwd" serves "/etc/passwd", outside "resources/static/" |
| Server.DirectoryOutcome | source/Server/Core/Server.cpp:236-270 | with the corrected guard, every file served lies inside the directory, for a directory ending in '/' |
| Server.DirectoryOutcomeAgrees | source/Server/Core/Server.cpp:236-270 | the corrected guard agrees with the code on every URL without "//" right after the mount point |
| Server.AsWrittenInsideWithoutDoubleSlash | source/Server/Core/Server.cpp:244-270 | the code serves only files inside the directory as long as no "//" follows the mount point |
| Server.DirectoryOutcomeAsWritten | source/Server/Core/Server.cpp:236-270 | the outcome `respondDirectory` computes as written (no contract of its own; see `AsWrittenEscapesDirectory` and `AsWrittenInsideWithoutDoubleSlash`) |
| Server.DirectoryRefusals | source/Server/Core/Server.cpp:237-255 | for the code and the corrected guard alike, a URL outside the mount point is 404 and a ".." in the remainder is 403 |
| Server.CookieSplitsBack | source/Server/Core/Server.cpp:222-228 | a stored cookie string cut at its first '=' gives back the name and "value; Path=path", plus "; extra" only when extra is non-empty |
| Server.ResponseData.constructor | include/Server/Core/Server.h:43-52 | the response defaults: status 200, "text/plain", keep-alive, not handled |
| Server.ResponseData.SetHeader | source/Server/Core/Server.cpp:220 | the header is stored under its key |
| Server.ResponseData.SetCookie | source/Server/Core/Server.cpp:222-228 | one entry per cookie name, replacing an earlier one |
| Server.ResponseData.SetBody | source/Server/Core/Server.cpp:230-234 | the body is always replaced; the content type only when a non-empty one is given |
| Server.ResponseData.RespondFile | source/Server/Core/Server.cpp:273-305 | a file that cannot be opened gives a handled 404; otherwise 200, its contents and the type for its suffix |
| Server.ResponseData.RespondDirectory | source/Server/Core/Server.cpp:236-271 | as the code is written: plain-text 404 outside the mount point, plain-text 403 for a ".." in the remainder, plain-text 404 for a target that is not a regular file, else 200 with the file and its type |
| Server.DefaultHeaders | source/Server/Core/Server.cpp:322-341 | the caller's headers are kept, and the four security and cache headers are always present |
| Server.CacheControlDefault | source/Server/Core/Server.cpp:323-329 | without a caller's Cache-Control, a "text/" type is cached publicly for a day and anything else is not cached |
| Server.DefaultHeadersIdempotent | source/Server/Core/Server.cpp:322-341 | adding the defaults twice adds nothing more |
| Server.ConstructResponseHeaders | source/Server/Core/Server.cpp:314-348 | the fixed lines carry the content type (or the text default), the connection, the server and the date; the map is the caller's with the defaults added |
| Server.ParseCookies | source/Server/Core/Server.cpp:75-88 | the loop fills the cookies from the ';' tokens, cut at the first '=' with no trimming |
| Server.CookieKeys | source/Server/Core/Server.cpp:80-87 | tokens without '=' add nothing; the keys are those of the tokens with '=' |
| Server.CookieUntouched | source/Server/Core/Server.cpp:80-87 | tokens that do not carry a key leave its cookie alone |
| Server.LaterCookieWins | source/Server/Core/Server.cpp:80-87 | a cookie sent twice keeps its last value |
| Server.SplitHost | source/Server/Core/Server.cpp:102-107 | a split happens exactly when a dot occurs before the last character; the subdomain is up to the first dot, and subdomain "." domain is the host |
| MCString.EscapeToAnsi | source/Minecraft/String.cpp:9-58 | the output is the translation of the input followed by ESC "[0m", so it always ends with the reset |
| MCString.Escaped | source/Minecraft/String.cpp:41-53 | the translation of the text from a position on (no contract of its own; see `EscapedStep` and the lemmas after it) |
| MCString.EscapedStep | source/Minecraft/String.cpp:41-53 | one turn of the loop adds the escape of a "§" code or the byte itself |
| MCString.PlainTextCopied | source/Minecraft/String.cpp:41-53 | text with no "§" followed by a code byte is copied unchanged and in order |
| MCString.SectionReplaced | source/Minecraft/String.cpp:42-49 | a "§" with a code byte after it is replaced by that code's escape, and translation resumes after the code |
| MCString.ColourCodes | source/Minecraft/String.cpp:12-30 | 0-9, a-f and r give their colour escapes |
| MCString.StyleCodes | source/Minecraft/String.cpp:32-38 | l, n, o and m give their style escapes; k gives nothing |
| MCString.UnknownCodeDropped | source/Minecraft/String.cpp:42-49 | any other code byte, upper case included, drops all three bytes |
| MCString.TrailingSectionCopied | source/Minecraft/String.cpp:42 | a "§" in the last two bytes has no code after it and is copied literally |
| MCString.EscapedAppend | source/Minecraft/String.cpp:41-53 | text that cannot start a "§" comes through unchanged in front of the rest |
| MCString.EscapedShift | source/Minecraft/String.cpp:41-53 | the translation from inside the second part of a text is that of the second part alone |
| Config.DashsrvConfig.constructor | include/Server/Config.h:30-37 | the members start empty |
| Config.DashsrvConfig.Configure | source/Server/Config.cpp:24-91 | on a parsed document the host, port and servers are set as `DecodeJson` says, or the first error is reported |
| Config.DashsrvConfig.AppendServers | source/Server/Config.cpp:40-89 | accepted entries are appended in order, and the first failing entry stops the loop with its error |
| Config.LoadConfig | source/Server/Config.cpp:11-22 | a missing file gets the default text written and used; the members are what that text decodes to |
| Config.FailureSticks | source/Server/Config.cpp:41-89 | once an entry fails, the entries after it are not read |
| Config.CollectInOrder | source/Server/Config.cpp:41-88 | an accepted list has one server per entry, in input order, each the conversion of its entry |
| Config.AllAccepted | source/Server/Config.cpp:41-88 | a list whose every entry converts is accepted |
| Config.FirstErrorWins | source/Server/Config.cpp:41-86 | the first entry that fails decides the error |
| Config.HostDefaults | source/Server/Config.cpp:25-38 | a missing "hostip" gives "0.0.0.0", a missing "hostport" gives 8080, and a present "hostip" is resolved when it ends in ".local" |
| Config.DefaultConfigDecodes | source/Server/Config.cpp:9 | the default text configures "0.0.0.0", port 8080 and no servers |
| Config.RequiredFields | source/Server/Config.cpp:44-86 | a minecraft entry needs ip, port and version; jellyfin and dashboard entries need ip and port; an unknown type is an error naming the type |
| Config.AcceptedServer | source/Server/Config.cpp:49-83 | an accepted server's address is the entry's, resolved when it ends in ".local"; its kind is the entry's type; a missing "extra-domain" gives "" |
| Config.ServerOf | source/Server/Config.cpp:44-86 | one entry of "servers" (no contract of its own; see `RequiredFields` and `AcceptedServer`) |
| Config.Collect | source/Server/Config.cpp:41-89 | the entries converted in order up to the first failure (no contract of its own; see `CollectInOrder`, `AllAccepted`, `FirstErrorWins` and `FailureSticks`) |
| Config.DecodeJson | source/Server/Config.cpp:24-91 | the host, port and servers of a document (no contract of its own; see `HostDefaults` and `DefaultConfigDecodes`) |

## Left out

- Sockets, the networking library's event loop and `mg_mgr_poll` are not modelled. A loop gets its clock readings and delivered events as input. A poll loop that runs out of readings before the deadline ends there (`Net.Poll`).
- The clock is not modelled. `GetTimeMillis`, `GetTimeMS` and `getHttpDate` become parameters, and each clock reading the source takes is a separate parameter. The readings are not required to increase, since nothing proved here depends on their order.
- JSON parsing and serialisation (nlohmann) are replaced by oracles:
  - `StatusDoc`, `JellyfinJson`, `PeerOutcome` and `Parsed` stand for the parser.
  - The `MCStatusToJSON`, `JellyfinStatusToJSON` and `DashboardStatusToJSON` renderers are function parameters.
  - With the library's default arguments, the peer and Jellyfin parses throw on text that is not JSON and never return a discarded value. The model keeps the code's discarded branches and does not model the exception that would escape `handleRoutes`.
- Status.Fill: a "description", "players", "version" or "favicon" field of the wrong JSON type (a "description" object, say) makes the library throw a `type_error` out of `QueryServer` (source/Minecraft/Status.cpp:75-91), and nothing in the core catches it. The parser oracle `StatusDoc` yields only well-typed fields, so this exception is not modelled.
- JSON numbers are integers. A Config number is cut to 32 bits when converted to `int`.
- The CPU reading and its retry loop are floating point and are left out of `DashboardStatus` (source/Server/Routes.cpp:213-221). The hardware sampling of source/Hardware.cpp is an input.
- Fields the source leaves uninitialised are read as 0 or false. This covers the memory, ping and `IsCurrent` fields of an offline `DashboardStatus`, and the flags of a default `JellyfinStatus`.
- Routes.GetJellyfinStatus: when a field of the system information is missing, the model states only that the status is offline. The fields copied before the missing one are not stated.
- A server entry without "type" is undefined behaviour in the source. It is modelled as the error `MISSING_TYPE`.
- A Config document that is discarded leaves the members as they were. A thrown exception is modelled as an error result; in the source, the exception discards the object.
- In the source, a dashboard server entry fails with the Jellyfin message. The model keeps that message.
- The order in which `constructResponseHeaders` prints the header map is not modelled, and neither is the text rendering.
- `MGResponse.Sent` is never written by the client, so it stays empty.
- Read and close events are ignored by the HTTP client's handler.
- The text of the GET request the client writes is modelled as the URL it asks for.
- `Status.ERR_TRUNCATED` is the model's name for a reply whose lengths do not fit the buffer: a read runs past its end, or the declared status length puts the end of the status packet before the start of the buffer, before the JSON text or past the end. In the source, such a reply reads outside the buffer.
- A `ROUTE` body is abstracted to the prefix each run of it sees. `Routes.Services.HandleRoutes` and its parts require the route stack to be empty at the start of a request, as it is between requests.
- The file system is given as `isDir` and `files`: `files` holds what a regular file contains, and a missing file or a non-file gives `None`.
- The websocket tools, the request parsing done by the networking library, GUID generation and start-up are not part of this model. Random values cannot be modelled; the rest is I/O.

## Findings

| source | as written | input that shows it | evidently intended | confidence | as-written member | corrected member |
|---|---|---|---|---|---|---|
| source/MGClient.cpp:39-41 | `!starts_with("http://") \|\| !starts_with("https://")` holds for every URL, so "http://" is always added | "http://x" becomes "http://http://x" | add "http://" only when neither scheme is present | not executed | MGClient.AsWrittenDoublesScheme | MGClient.NormaliseUrl |
| source/Server/Core/Server.cpp:244-270 | the remainder after the mount point, less its first character, is joined to the directory; a remainder starting with "//" is absolute and replaces the directory | "/static//etc/passwd" serves "/etc/passwd" | serve only files inside the directory | not executed | Server.AsWrittenEscapesDirectory | Server.DirectoryOutcome |
