# MogileFS tracker client, modelled in Dafny

This project models the `MogileFS` client class of a Kohana module. The class talks to the
MogileFS trackers over their line protocol and to storage nodes over HTTP. The model covers:

- the wire codec: the request line `CMD&k=v&...\n`, and the decoding of `OK <query>` and
  `ERR <code> <message>` replies;
- the error taxonomy: typed errors for `unknown_key`, `empty_file` and `none_match`, and a
  generic error otherwise;
- the tracker connection (`_socket`), with `connect`, `disconnect` and `_do_request`;
- the two-phase write `set` / `set_resource` (`CREATE_OPEN`, then an HTTP PUT, then
  `CREATE_CLOSE`);
- the read with fallback `get`, plus `get_paths`, `rename` and `delete`.

Modules:

| module | file | contents |
|---|---|---|
| `Wrappers` | wrappers.dfy | `Option`, `Result`, `Outcome` |
| `Decimal` | decimal.dfy | decimal rendering of ports and status codes |
| `Assoc` | assoc.dfy | PHP ordered arrays with string keys: lookup, `$a[$k] = $v`, `unset` |
| `UrlCodec` | urlcodec.dfy | `urlencode`/`urldecode`, `trim`, `explode`, and `parse_str` of plain query strings |
| `Protocol` | protocol.dfy | the request line and the response classification |
| `Errors` | errors.dfy | the exceptions and their messages |
| `Tracker` | tracker.dfy | endpoints; the scripted sockets (`Net`, class `Network`); `connect`, `disconnect` and `_do_request` as functions of a `Session` |
| `Client` | client.dfy | configuration, HTTP requests, the operations as functions of a `Session`, and the class `MogileFS` |

Each state-changing method of `Client.MogileFS` is proved equal to a specification function:

- `Connect` to `Tracker.ConnectSpec`;
- `DoRequest` to `Tracker.RequestSpec`;
- `Set` and `SetResource` to `Client.StoreSpec`;
- `Get` to `Client.GetSpec`;
- `Rename` and `Delete` to `Client.CommandSpec`.

The methods state the new connection, the new socket state, the trace of actions and the
result. The lemmas next to those functions prove what the client promises about them.

The sockets and the HTTP transfer are parameters:

- `Net` fixes:
  - which trackers accept a connection;
  - whether the stream is at end-of-file;
  - what each coming write and read meets (`Exchange`);
  - a log of connection attempts and of the lines each tracker received.
- The HTTP transfer is a function from request to response, held by the client.
- A ghost `trace` in `MogileFS` records every `_do_request` call and every HTTP request, in order.

Two consequences of the code that the model keeps:

- **The stale stream after end-of-file.** `connected()` is false once the stream reports
  end-of-file (classes/mogilefs.php:175). So after a write or a read that fails at
  end-of-file, `disconnect()` returns at once (classes/mogilefs.php:231-232) and `_socket`
  keeps the old stream. The client is still not connected, so the next request reconnects.
  `Tracker.TransportFailureDisconnects` and `Tracker.ConnectedTransportFailure` state this.
  The same holds when a tracker sends its reply and then closes its end (`RepliesThenEof`):
  the reply is decoded as usual, but the client is no longer connected afterwards, and an
  unrecognised reply leaves the stale stream in `_socket`. `Tracker.ConnectedReplyThenEof`
  states this.
- **Addresses without a host.** The model recognises a host only in the forms `host:port`,
  `//host` and `//host:port`, where the host is not empty and contains none of `:`, `/`, `@`,
  `?` and `#`. For a bare word such as `localhost`, or a port of 0, above 65535 or of six
  digits, `parse_url` leaves `$parts['host']` unset (classes/mogilefs.php:185, 192). Such a
  tracker is never connected to: the model gives it the empty host, which no attempt reaches.
  The code gives port 7001 to every address in which `parse_url` finds a host but no port
  (classes/mogilefs.php:193). In the model that is only `//host`; the other such forms are
  listed under `Tracker.ParseTracker` in "Left out".

## Model

| member | source | states |
|---|---|---|
| Protocol.EncodeRequest | classes/mogilefs.php:244-251 | the line built by the loop over the arguments is the command, then `&enc(k)=enc(v)` per argument in insertion order, then a newline |
| Protocol.RequestLine | classes/mogilefs.php:244-251 | the line `_do_request` writes; `EncodeRequest` proves the source's loop builds exactly it, and `RequestLineRoundTrip` that a tracker parses the command and the arguments back from it |
| Protocol.RequestLineRoundTrip | classes/mogilefs.php:244-251 | a tracker that splits the line at `&` and each piece at its first `=` recovers the command and every argument in order |
| UrlCodec.UrlEncode | classes/mogilefs.php:248 | every character of an encoded key or value is unreserved, `+`, `%` or outside the byte range, so `&`, `=`, space and newline never occur in it |
| UrlCodec.UrlDecodeEncode | classes/mogilefs.php:248 | `urldecode(urlencode(s)) == s` |
| UrlCodec.UrlDecode | classes/mogilefs.php:300 | `urldecode`: `+` becomes a space and `%XX` the character with that code; `UrlDecodeEncode` proves it undoes `urlencode` |
| UrlCodec.Explode | classes/mogilefs.php:269 | `explode` returns at least one piece, no piece contains the separator, and joining the pieces with it gives the input back |
| UrlCodec.ExplodeJoin | classes/mogilefs.php:269 | exploding a join of separator-free pieces gives the pieces back |
| UrlCodec.TrimPadded | classes/mogilefs.php:273 | `trim` removes exactly the whitespace padding around a text that begins and ends with non-whitespace |
| UrlCodec.TrimLeft | classes/mogilefs.php:273 | the result is a suffix of the input, everything dropped is whitespace, and the result does not start with whitespace |
| UrlCodec.TrimRight | classes/mogilefs.php:273 | the result is a prefix of the input, everything dropped is whitespace, and the result does not end with whitespace |
| UrlCodec.Trim | classes/mogilefs.php:273 | `trim`: `TrimLeft` then `TrimRight`, so the stated facts of both hold; `TrimPadded` proves it removes exactly the padding |
| UrlCodec.ParseBuildQuery | classes/mogilefs.php:273 | `parse_str` of a query built from distinct non-empty keys gives the same fields in the same order |
| UrlCodec.ParseQuery | classes/mogilefs.php:273 | the dictionary `parse_str` builds has no repeated key and no empty key |
| Assoc.Put | classes/mogilefs.php:273 | after `$a[$k] = $v` the key maps to `v` and every other key maps to what it did before |
| Assoc.PutKeys | classes/mogilefs.php:273 | a key already present keeps its place, and a new key goes last |
| Assoc.PutKeepsDistinct | classes/mogilefs.php:273 | an array without repeated keys has none after `$a[$k] = $v` |
| Assoc.PutNewKey | classes/mogilefs.php:273 | a key not yet present is appended at the end |
| Assoc.Remove | classes/mogilefs.php:147 | after `unset($a[$k])` the key is absent, every other key maps to what it did before, exactly the entries with other keys remain, an array without repeated keys still has none, and an array without the key is unchanged |
| Assoc.RemoveAppend | classes/mogilefs.php:147 | `unset` works entry by entry: removing a key from two arrays joined is removing it from each and joining the results, so the order of the other entries is kept |
| Assoc.RemoveOnce | classes/mogilefs.php:147 | removing a key that occurs once leaves exactly the entries before it followed by the entries after it |
| UrlCodec.ParseQueryLastValue | classes/mogilefs.php:273 | appending `&k=v` to a query makes `k` map to `v` and leaves every other key alone; `k` keeps its place if it was present and goes last otherwise |
| Assoc.Find | classes/mogilefs.php:285 | a lookup finds a value exactly when the key is present, and the value found is stored under that key |
| Protocol.DecodeResponseKind | classes/mogilefs.php:269-310 | a reply is `OK` exactly when it starts with the word `OK`, `ERR` exactly when it starts with the word `ERR`, and unrecognised otherwise |
| Protocol.DecodeResponse | classes/mogilefs.php:269-310 | the classification of a reply line; `DecodeResponseKind`, `OkLineRoundTrip` and `ErrLineCode` state what it returns |
| Protocol.OkLineRoundTrip | classes/mogilefs.php:271-275 | decoding the line `OK <query>\r\n` for distinct non-empty keys returns exactly the encoded fields |
| Protocol.ErrLineCode | classes/mogilefs.php:277-282 | for an `ERR` line the second word is the error code and the whole line is kept for the message |
| Errors.MapError | classes/mogilefs.php:282-301 | the error raised is one of the three typed key errors or the generic tracker error |
| Errors.MapErrorTyped | classes/mogilefs.php:282-301 | `unknown_key`, `empty_file` and `none_match` give the matching typed error carrying the key; any other or absent code gives the generic error with the url-decoded, trimmed line |
| Errors.MessageNamesKey | classes/mogilefs.php:133-135 | the message of every key error and of the failed `get` names the key in quotes |
| Errors.Message | classes/mogilefs.php:63-309 | the text of each exception, with its parameters filled in; `MessageNamesKey` proves the key errors and the failed `get` quote the key |
| Decimal.DecimalRoundTrip | classes/mogilefs.php:185-193 | reading back the decimal rendering of a port gives the port |
| Decimal.IntToDecimal | classes/mogilefs.php:63-65 | the rendered status starts with `-` exactly when the status is negative, and the rest is the decimal digits of its absolute value |
| Tracker.DigitsStart | classes/mogilefs.php:185 | the position returned starts the run of digits that ends the address, and that run cannot be extended to the left |
| Tracker.ParseTracker | classes/mogilefs.php:185-193 | the endpoint `fsockopen` is called with for a configured address; `ParseTrackerShape`, `ParseRenderTracker`, `ParseTrackerDefaultPort`, `ParseTrackerNoHost` and `ParseTrackerPortZero` state what it returns |
| Tracker.ParseRenderTracker | classes/mogilefs.php:185-193 | parsing `host:port` gives back the host and port, for every non-empty host without `:`, `/`, `@`, `?` or `#` and every port from 1 to 65535 |
| Tracker.ParseTrackerDefaultPort | classes/mogilefs.php:185-193 | `//host` is that host on port 7001 |
| Tracker.ParseTrackerShape | classes/mogilefs.php:185-193 | an address either names a non-empty host without `:`, `/`, `@`, `?` or `#` and a port from 1 to 65535, or names no host at all (the empty host on 7001) |
| Tracker.HostPort | classes/mogilefs.php:185 | a `host:port` address that is accepted has a valid host and a port from 1 to 65535 |
| Tracker.ParseTrackerNoHost | classes/mogilefs.php:185-199 | a bare word without `:` or a leading `//` names no host, and the connection attempt to it fails |
| Tracker.ParseTrackerPortZero | classes/mogilefs.php:185-192 | `host:0` names no host |
| Tracker.FirstReachable | classes/mogilefs.php:183-212 | the index returned is the least whose tracker accepts a connection, or the length when none does |
| Tracker.IsConnected | classes/mogilefs.php:173-176 | `connected()`: a socket is held and its stream is not at end-of-file; `ConnectSpec`, `DisconnectSpec`, `TransportFailureDisconnects` and `ConnectedReplyThenEof` state how each operation changes it |
| Tracker.ConnectSpec | classes/mogilefs.php:178-227 | on a connected client connect returns at once and changes nothing; a successful connect leaves the client connected; a failed one raises "no tracker" and leaves it not connected; nothing is written or read |
| Tracker.ConnectFailover | classes/mogilefs.php:178-226 | connect succeeds exactly when some tracker is reachable; the live tracker is the lowest-indexed reachable one and each tracker before it was tried once, in order; on failure every tracker was tried once |
| Tracker.FailoverToSecond | classes/mogilefs.php:183-212 | with an unreachable first tracker and a reachable second, both are tried and the client ends up on the second |
| Tracker.DisconnectSpec | classes/mogilefs.php:229-237 | afterwards the client is not connected; a connected socket is cleared, and an unconnected one is left as it was |
| Tracker.RequestSpec | classes/mogilefs.php:239-311 | `_do_request`: connect, write the line, read one reply, decode it; `RequestWritesOneLine`, `RequestReconnects`, `RequestAfterConnect`, `ConnectedTransportFailure`, `ConnectedReply` and `ConnectedReplyThenEof` together state its outcome for every script |
| Tracker.RequestWritesOneLine | classes/mogilefs.php:239-251 | a request that cannot connect raises "no tracker"; otherwise at most the one encoded line is written, and only to the tracker just connected |
| Tracker.TransportFailureDisconnects | classes/mogilefs.php:251-267 | after a failed write or read the client is not connected: the socket is cleared, or the stream is at end-of-file |
| Tracker.ConnectedTransportFailure | classes/mogilefs.php:251-267 | for a connected client, the write failures and only they raise "Unable to write", the read failures (and an exhausted script) and only they raise "Unable to read"; a failed write delivers nothing; the socket is cleared unless the stream is at end-of-file |
| Tracker.RequestReconnects | classes/mogilefs.php:241-251 | a client that is not connected first tries the trackers in order: exactly those up to and including the first reachable one, or all of them when none is; only that first reachable tracker can receive the line |
| Tracker.ConnectedReply | classes/mogilefs.php:260-310 | for a connected client whose tracker answers and keeps its end open, the line is written and one reply consumed; `OK` returns the fields and keeps the connection; `ERR` raises the mapped error and keeps the connection; anything else disconnects and raises "Unknown error!" |
| Tracker.ConnectedReplyThenEof | classes/mogilefs.php:260-310 | for a connected client whose tracker answers and then closes its end, the reply is decoded as for an open stream (`OK` fields, mapped `ERR`, "Unknown error!"), the client is then not connected (`feof`, classes/mogilefs.php:175), and the stale stream stays in `_socket` in every case |
| Tracker.RequestAfterConnect | classes/mogilefs.php:241-251 | when `connect()` succeeds, the client is connected and the request goes on exactly as from the connected client, so the lemmas about a connected client give the result |
| Tracker.OkReplyReturnsFields | classes/mogilefs.php:271-275 | the fields a tracker encodes in its `OK` line, with its end kept open, are exactly what the request returns, and the connection stays |
| Tracker.UnknownKeyReply | classes/mogilefs.php:282-286 | `ERR unknown_key ...` from a tracker that keeps its end open raises UnknownKey for the request's `key` argument, the message names that key, and the connection stays |
| Tracker.Network.Open | classes/mogilefs.php:191-199 | the scripted `fsockopen` |
| Tracker.Network.Write | classes/mogilefs.php:251 | the scripted `fwrite` |
| Tracker.Network.ReadLine | classes/mogilefs.php:260 | the scripted `fgets` |
| Client.PutRequest | classes/mogilefs.php:56-60 | the PUT goes to the path; `set` always sends the length of its content, and `set_resource` sends a length only when one is given |
| Client.OpenArgsClass | classes/mogilefs.php:48-54 | `CREATE_OPEN` carries the key and the domain, and the class, which is the default class when none is given |
| Client.StoreSpec | classes/mogilefs.php:46-74 | the two-phase write; `StoreClosesIffStored`, `StoreBadStatus` and `StoreCloseCarriesLocation` state when it closes, what it reports and where it writes |
| Client.StoreClosesIffStored | classes/mogilefs.php:50-73 | `CREATE_CLOSE` is requested if and only if `CREATE_OPEN` succeeded and the PUT returned a status in [200, 299] |
| Client.StoreBadStatus | classes/mogilefs.php:62-65 | after a PUT status outside [200, 299] the error carries that status, and the tracker hears nothing more |
| Client.StoreCloseCarriesLocation | classes/mogilefs.php:56-73 | when `CREATE_CLOSE` is sent, it follows the PUT to the path `CREATE_OPEN` returned and carries that location |
| Client.CloseArgsLocation | classes/mogilefs.php:67-73 | the `CREATE_CLOSE` arguments carry the key and exactly the devid, fid and path of the location |
| Client.GetPathsArgs | classes/mogilefs.php:140-144 | the request carries the key, the domain and `noverify` = 0 when verifying, 1 otherwise |
| Client.GetPathsSpec | classes/mogilefs.php:138-150 | `get_paths`; `GetPathsStripsCount` and `GetPathsKeepsOrder` state its result |
| Client.GetPathsStripsCount | classes/mogilefs.php:140-149 | the result never holds a `paths` entry, holds exactly the reply's other entries, and maps every other key as the reply does; errors are passed on |
| Client.GetPathsKeepsOrder | classes/mogilefs.php:140-149 | a reply holding the `paths` count once returns exactly the entries before and after it, in the tracker's order, which is the order in which `get` tries the paths |
| Client.FirstOk | classes/mogilefs.php:123-131 | the index returned is the least whose GET returns status 200, or the length when none does |
| Client.FetchSpec | classes/mogilefs.php:123-131 | the walk over the paths; `FetchFirstSuccess` states which GETs it makes and which body it returns |
| Client.FetchFirstSuccess | classes/mogilefs.php:123-135 | the body returned is that of the first path with status 200; the paths before it were fetched once each and none after it; with no 200, every path was fetched and nothing is returned |
| Client.GetSpec | classes/mogilefs.php:119-136 | `get`; `GetOutcome` states its result |
| Client.GetOutcome | classes/mogilefs.php:119-136 | `get` passes on a failed `get_paths`; otherwise it returns the first 200 body or raises "Unable to retrieve key" naming the key |
| Client.CommandOutcome | classes/mogilefs.php:152-171 | `rename` and `delete` succeed exactly when their request succeeds, raise its error otherwise, and change the session as the request does |
| Client.CommandSpec | classes/mogilefs.php:152-171 | `rename` and `delete`; `CommandOutcome` and `DeleteUnknownKey` state their result and new state |
| Client.DeleteUnknownKey | classes/mogilefs.php:163-168 | deleting a key the tracker does not know raises UnknownKey for that key; a tracker that keeps its end open keeps the connection |
| Client.MogileFS.Connect | classes/mogilefs.php:178-227 | the new socket, the sockets and the result are those of `ConnectSpec` |
| Client.MogileFS.Connected | classes/mogilefs.php:173-176 | `connected()` of the object: `Tracker.IsConnected` of its socket and its stream |
| Client.MogileFS.Failover | classes/mogilefs.php:183-226 | the loop over the trackers ends in the state and result of `ConnectSpec` |
| Client.MogileFS.Disconnect | classes/mogilefs.php:229-237 | the new socket is that of `DisconnectSpec` |
| Client.MogileFS.DoRequest | classes/mogilefs.php:239-311 | the new socket, the sockets and the result are those of `RequestSpec`; the call is recorded in the trace |
| Client.MogileFS.Store | classes/mogilefs.php:50-73 | the new state, the actions and the result are those of `StoreSpec` |
| Client.MogileFS.Set | classes/mogilefs.php:46-74 | `set` is `StoreSpec` with the content as payload |
| Client.MogileFS.SetResource | classes/mogilefs.php:84-117 | `set_resource` is `StoreSpec` with the stream and optional length as payload |
| Client.MogileFS.GetPaths | classes/mogilefs.php:138-150 | the new state, the actions and the result are those of `GetPathsSpec` |
| Client.MogileFS.Get | classes/mogilefs.php:119-136 | the new state, the actions and the result are those of `GetSpec` |
| Client.MogileFS.Fetch | classes/mogilefs.php:123-131 | the loop over the paths makes the GETs and returns the body of `FetchSpec` |
| Client.MogileFS.Rename | classes/mogilefs.php:152-161 | the new state, the actions and the result are those of `CommandSpec` for `RENAME` |
| Client.MogileFS.Delete | classes/mogilefs.php:163-171 | the new state, the actions and the result are those of `CommandSpec` for `DELETE` |

## Left out

- Kohana plumbing: the configuration loader, the `instance()` singleton and the constructor's eager `connect()` (classes/mogilefs.php:28-44). The configuration is an immutable `Config` value. The model's constructor starts disconnected. The first request connects, as `_do_request` does.
- Logging through `Kohana::$log` (classes/mogilefs.php:201-203, 216-220). It has no effect on behaviour.
- `stream_set_timeout` and the connect timeout (classes/mogilefs.php:196, 205-209). These are floating-point timeouts. A read that times out is a scripted `ReadFails`.
- Real sockets. `fsockopen`, `fwrite`, `fgets`, `feof` and `fclose` are the scripted `Net`. A write either fails, on an open stream or at end-of-file, or delivers the whole line: partial writes are not modelled. An exhausted script reads as a failed read.
- HTTP. `Request::factory(...)->execute()` is the client's `transfer` function. Only the URL, the method, the length header and the body are modelled. `transfer` always returns a response, but `execute()` can throw (classes/mogilefs.php:56-60, 103, 125), for example when a storage node refuses the connection. Nothing in the client catches that exception, so `set` stops before `CREATE_CLOSE`, and `get` stops at that replica without trying the next path. `Client.FetchFirstSuccess` covers the fallback on status codes only.
- `set_file` (classes/mogilefs.php:76-82). It only opens a file and calls `set_resource`. A stream is an opaque handle.
- The catch of `ErrorException` around `fsockopen` (classes/mogilefs.php:189-223). The model reads a failed `fsockopen` as storing FALSE in `_socket`. If the framework turns the warning into an exception instead, the old value stays. In both readings the client is not connected.
- The framework's conversion of PHP notices into exceptions. An undefined index reads as NULL, which is the empty string. For example, `RENAME` has no `key` argument, so an `unknown_key` reply to it carries the empty key.
- UrlCodec.UrlEncode: a simplified `urlencode`. Letters, digits, `-`, `_` and `.` pass through, a space becomes `+`, and other characters below 256 become `%XX`. Characters from 256 up pass through unchanged: strings are sequences of characters, not bytes.
- UrlCodec.ParseQuery: a simplified `parse_str`. A piece without a key is skipped, and a repeated key keeps its first place and takes the last value. Array syntax (`a[]=`) and PHP's mangling of `.` and space in key names are not modelled.
- Tracker.ParseTracker: models three `parse_url` forms: `host:port`, `//host` and `//host:port`, with a host free of `:`, `/`, `@`, `?` and `#`. Every other address counts as naming no host. This includes addresses with a scheme, user information (`@`), a query (`?`), a fragment (`#`), a path or an IPv6 literal, where `parse_url` would report a host.
- Client.PutRequest: `strlen` counts bytes, while the model counts characters.
- Tracker.Network: the `Net` value stands for every tracker at once. A socket opened to a new tracker continues the same script.

