# Floway backend core, modelled in Dafny

This project models the core of the Floway running-app backend, a Node.js
service. The model covers these parts:

- **MQTT gateway** (`MqttServer`):
  - who may connect, over TCP, WebSocket and secure WebSocket;
  - how the TLS bundle is found;
  - which listeners start;
  - what `stop` closes.
- **JWT helpers** behind every authenticated route: the bearer header test, the extraction of the token, and RS256 verification with expiry ignored.
- **WebSocket manager:** the client registry, channel subscriptions, fan-out of events, and the counters.
- **HTTP routes:**
  - running sessions: the POST validation, the record written, the user/day range query, and the title update;
  - the event upload: its guards, the `IEvent` built, and its storage and publication.
- **User accounts:** the e-mail and password rules, the order of the sign-up checks, the login outcome, and the default administrator.
- **Notification targets and push messages:**
  - the friend ids a notification goes to;
  - the Expo push messages built for a token list, and how the HTTP outcome becomes a result.
- **SQL placeholder generation**, and the two statements of custom-run creation.

Every module is self-contained Dafny:

- `Wrappers` holds `Option`/`Result`.
- `JsValues` holds the JavaScript semantics the code relies on:
  - truthiness and `||`;
  - `split`/`join` on one character;
  - number-to-text and `parseInt`;
  - ASCII lower-casing.

Pure code is modelled as functions with lemmas. Code that updates objects in place is modelled as classes whose methods are proved against specification functions:

- the WebSocket registry;
- the MQTT server's handle fields;
- the SSL lookup;
- the loops that build parameter lists.

The outside world is not executed. Instead:

- Sockets, brokers and stores are recorded as effect traces or returned statements.
- Clocks, generated ids, file names, database rows and HTTP outcomes are parameters.
- Cryptography is abstract: an RS256 decoder, the bcrypt hash and compare, and `JSON.parse`.

## Model

| member | source | states |
|---|---|---|
| JwtHandler.VerifyJwt | src/webServer/security/JWTHandler.ts:23-31 | `verifyJwt` is true exactly when the library call with `{algorithms: ["RS256"], ignoreExpiration: true}` does not throw |
| JwtHandler.VerifyJwtAccepts | src/webServer/security/JWTHandler.ts:23-31 | A token is accepted iff it is non-empty, decodes, names RS256, carries a valid signature, and has no `nbf` or an `nbf` not after the clock |
| JwtHandler.ExpiryIgnored | src/webServer/security/JWTHandler.ts:26 | Changing the `exp` claim of every token changes no verdict |
| JwtHandler.NoClockWithoutNotBefore | src/webServer/security/JWTHandler.ts:26 | Without an `nbf` claim, the verdict is the same at any clock reading |
| JwtHandler.ExpiredTokenStillAccepted | src/webServer/security/JWTHandler.ts:26 | An expired, correctly signed token is refused under the default options but accepted by `verifyJwt` |
| JwtHandler.OnlyRS256 | src/webServer/security/JWTHandler.ts:26 | A token whose header names any other algorithm is refused |
| JwtHandler.CheckJwtAvailability | src/webServer/security/JWTHandler.ts:6-14 | True iff an `authorization` header is present and starts with "Bearer " |
| JwtHandler.ExtractJwt | src/webServer/security/JWTHandler.ts:16-21 | Extraction throws exactly when the header is missing |
| JwtHandler.SecondPiece | src/webServer/security/JWTHandler.ts:16-21 | When the scheme has no space, the token is the text after the first space up to the next one |
| JwtHandler.ExtractAfterBearer | src/webServer/security/JWTHandler.ts:16-21 | For a header that passes the bearer test, the token is the text after "Bearer " up to the next space |
| JwtHandler.ExtractWithoutSpace | src/webServer/security/JWTHandler.ts:18 | A header with no space yields `undefined` |
| JsValues.SplitJoin | src/webServer/security/JWTHandler.ts:18 | Splitting the join of separator-free pieces on that separator gives the pieces back |
| JsValues.JoinSplit | src/webServer/security/JWTHandler.ts:18 | Joining the pieces of a split with the separator gives the text back |
| JsValues.IntToStringParses | src/webServer/controllers/SessionController.ts:113 | `parseInt` of an integer's decimal text is that integer |
| JsValues.ParseSkipsSpace | src/webServer/controllers/SessionController.ts:113 | Leading white space and line terminators do not change what `parseInt` reads |
| JsValues.ParseHex | src/webServer/controllers/SessionController.ts:113 | After a `0x` or `0X` prefix, `parseInt` reads the leading run of hexadecimal digits |
| JsValues.ParseHexPair | src/webServer/controllers/SessionController.ts:113 | `0x` and two hexadecimal digits `a`, `b` read as `16a + b`, so "0x1F" is 31 |
| JsValues.ParseSpaced | src/webServer/controllers/SessionController.ts:113 | A space and a run of decimal digits read as the digits' value, so " 12" is 12 |
| JsValues.ParseMinus | src/webServer/controllers/SessionController.ts:113 | A leading minus sign is taken as the sign of the number read after it |
| JsValues.NatToStringInjective | src/webServer/controllers/SessionController.ts:51 | Distinct Unix times give distinct decimal texts |
| SqlHandler.Fill | src/handler/dbs/SQLHandler.ts:59 | `Array(n).fill(s)` has length `n` and every element is `s` |
| SqlHandler.JoinFillCount | src/handler/dbs/SQLHandler.ts:63-66 | Joining `n` copies of a group with a separator free of `c` holds `n` times the group's count of `c` |
| SqlHandler.GenQMSCount | src/handler/dbs/SQLHandler.ts:58-61 | `genQMS(n)` holds exactly `n` question marks |
| SqlHandler.GenNQMSCount | src/handler/dbs/SQLHandler.ts:63-66 | `genNQMS(count, n)` holds exactly `count * n` question marks |
| SqlHandler.GenQMSEmpty | src/handler/dbs/SQLHandler.ts:58-61 | `genQMS(0)` is "()" |
| SqlHandler.GenNQMSNone | src/handler/dbs/SQLHandler.ts:63-66 | `genNQMS(count, 0)` is empty |
| SqlHandler.GenNQMSOne | src/handler/dbs/SQLHandler.ts:58-66 | One group of `genNQMS` is exactly `genQMS` |
| SqlHandler.QuestionMarksShape | src/handler/dbs/SQLHandler.ts:59 | The joined marks alternate `?` and `,`, with length `2n-1` |
| SqlHandler.GenQMSShape | src/handler/dbs/SQLHandler.ts:58-61 | `genQMS(n)` is "(" then `n` marks separated by commas, then ")" |
| SqlHandler.PlaceholdersOnly | src/handler/dbs/SQLHandler.ts:58-66 | Both generators emit only parentheses, question marks and commas |
| CustomRun.FlattenChunks | src/entity/CustomRun.ts:57-60 | The flattened list has four entries per link, and link `i` fills positions `4i..4i+3` in column order |
| CustomRun.FlattenAudios | src/entity/CustomRun.ts:56-60 | The push loop produces exactly the flattened parameter list |
| CustomRun.CustomRunValuesCount | src/entity/CustomRun.ts:50-53 | The `custom_run` insert has six placeholders |
| CustomRun.CustomRunInsertShape | src/entity/CustomRun.ts:50-53 | The `custom_run` insert binds six parameters to its six placeholders, the last being `run_id`, or NULL when `run_id` is missing or 0 |
| CustomRun.RunAudioInsertShape | src/entity/CustomRun.ts:56-64 | The `run_audio` insert binds four parameters per link to as many placeholders, link `i` filling positions `4i..4i+3` |
| CustomRun.CreateCustomRun | src/entity/CustomRun.ts:47-68 | One `custom_run` insert, plus a `run_audio` insert for the new id iff audios are given. Returns the first insert's id; every statement binds as many parameters as it has placeholders |
| FriendTools.BlockedIds | src/tools/FriendTools.ts:11 | The blocked ids are the rows' `user_id`s in order |
| FriendTools.Dedup | src/tools/FriendTools.ts:35 | The de-duplicated list is duplicate-free and has the same members |
| FriendTools.DedupOrder | src/tools/FriendTools.ts:35 | The de-duplicated list keeps the order of first occurrences |
| FriendTools.CollectedMembers | src/tools/FriendTools.ts:25-33 | An id is collected iff some friend row names it, it is not the user, and it is not blocked |
| FriendTools.FetchFriendIds | src/tools/FriendTools.ts:3-36 | No friend rows give an empty list. Otherwise the result is duplicate-free, excludes the user and every blocker, and holds exactly the eligible ids of the rows |
| FriendTools.OwnNumericIdKept | src/tools/FriendTools.ts:25-35 | With a text user id and numeric rows, the user's own numeric id is kept unless blocked, since `!==` compares across types |
| WebSocketRegistry.Send | src/websocketServer/WebSocketServer.ts:124-129 | A message is delivered, once and to that client only, iff the client is registered and open |
| WebSocketRegistry.HandleMessageLocal | src/websocketServer/WebSocketServer.ts:83-118 | Handling a message changes only the sender's subscriptions, keeps the key set and open states, and answers only the sender |
| WebSocketRegistry.SubscribeAdds | src/websocketServer/WebSocketServer.ts:89-98 | Subscribing adds the channel, confirms it when open, and a second identical subscribe changes nothing |
| WebSocketRegistry.NoChannelNoEffect | src/websocketServer/WebSocketServer.ts:88-110 | A subscribe or unsubscribe without a truthy channel has no effect and no answer |
| WebSocketRegistry.UnsubscribeRemoves | src/websocketServer/WebSocketServer.ts:100-110 | Unsubscribing removes the channel and confirms it when the socket is open; a channel not held is a no-op on the registry, still confirmed |
| WebSocketRegistry.UnsubscribeUndoesSubscribe | src/websocketServer/WebSocketServer.ts:88-110 | Unsubscribing from a freshly subscribed channel restores the registry |
| WebSocketRegistry.OtherMessagesOnlyAnswer | src/websocketServer/WebSocketServer.ts:59-116 | Unparseable input or any other type leaves the registry unchanged and sends one error to the sender |
| WebSocketRegistry.UnknownClientIgnored | src/websocketServer/WebSocketServer.ts:84-85 | A message from an unregistered client is ignored |
| WebSocketRegistry.ToChannelRecipients | src/websocketServer/WebSocketServer.ts:132-146 | The channel fan-out reaches exactly the open registered subscribers, each once |
| WebSocketRegistry.ToAllRecipients | src/websocketServer/WebSocketServer.ts:148-160 | The broadcast reaches exactly the open registered clients, each once |
| WebSocketRegistry.CountSubscribedIsSize | src/websocketServer/WebSocketServer.ts:170-178 | The counting loop's result is the number of registered subscribers of the channel |
| WebSocketRegistry.DistinctSize | src/websocketServer/WebSocketServer.ts:180-182 | The registry's insertion order holds as many ids as the registry |
| WebSocketRegistry.Without | src/websocketServer/WebSocketServer.ts:71-79 | Removing a client from the order keeps every other id and keeps the order duplicate-free |
| WebSocketRegistry.WebSocketManager.constructor | src/websocketServer/WebSocketServer.ts:23-36 | A new manager has no clients and has sent nothing |
| WebSocketRegistry.WebSocketManager.SendToClient | src/websocketServer/WebSocketServer.ts:124-129 | Appends the delivery that `Send` allows and nothing else |
| WebSocketRegistry.WebSocketManager.Connect | src/websocketServer/WebSocketServer.ts:39-57 | Registers the client with no subscriptions, at the end of the insertion order, then greets it with its id |
| WebSocketRegistry.WebSocketManager.OnMessage | src/websocketServer/WebSocketServer.ts:59-69 | The new registry and the sent messages are those of the message handler |
| WebSocketRegistry.WebSocketManager.Disconnect | src/websocketServer/WebSocketServer.ts:71-79 | Close or error removes the client from the registry and the order, and sends nothing |
| WebSocketRegistry.WebSocketManager.ReadyStateChanged | src/websocketServer/WebSocketServer.ts:124-129 | A socket's open state changes only that client's `open` flag |
| WebSocketRegistry.WebSocketManager.EmitToChannel | src/websocketServer/WebSocketServer.ts:132-146 | Appends the channel fan-out, in registry order |
| WebSocketRegistry.WebSocketManager.EmitToAll | src/websocketServer/WebSocketServer.ts:148-160 | Appends the broadcast, in registry order |
| WebSocketRegistry.WebSocketManager.EmitToClient | src/websocketServer/WebSocketServer.ts:162-168 | Appends the one delivery `Send` allows |
| WebSocketRegistry.WebSocketManager.GetSubscriberCount | src/websocketServer/WebSocketServer.ts:170-178 | Returns the number of clients subscribed to the channel |
| WebSocketRegistry.WebSocketManager.GetConnectedClientsCount | src/websocketServer/WebSocketServer.ts:180-182 | Returns the registry size |
| WebSocketRegistry.WebSocketManager.GetChannels | src/websocketServer/WebSocketServer.ts:184-192 | Returns the union of all clients' subscriptions |
| MqttGateway.IsAuthenticated | src/mqttServer/MqttServer.ts:249-256 | True iff a token is given and `verifyJwt` accepts it |
| MqttGateway.AuthenticateHook | src/mqttServer/MqttServer.ts:35-45 | Allows iff the password (or, when it is absent, the username) is an accepted token, or the peer is `::1`. Otherwise it denies with "Authentication failed", or throws when there is no client |
| MqttGateway.LoopbackBypass | src/mqttServer/MqttServer.ts:35-45 | An IPv6 loopback peer is admitted whatever its credentials |
| MqttGateway.NoBypassForIPv4Loopback | src/mqttServer/MqttServer.ts:35-45 | `127.0.0.1` gets no bypass |
| MqttGateway.EmptyPasswordShadowsUsername | src/mqttServer/MqttServer.ts:35-45 | An empty password is used in place of the username, so the connection is denied |
| MqttGateway.AuthorizePublish | src/mqttServer/MqttServer.ts:48-51 | Every publish is authorized |
| MqttGateway.AuthorizeSubscribe | src/mqttServer/MqttServer.ts:53-56 | Every subscription is authorized unchanged |
| MqttGateway.Admits | src/mqttServer/MqttServer.ts:106-118 | A WebSocket connection is handed to the broker iff its credential is an accepted token |
| MqttGateway.WsCredentialChoice | src/mqttServer/MqttServer.ts:106-111 | The plain WebSocket credential is a truthy `sec-websocket-protocol`, else `authorization` |
| MqttGateway.ProtocolShadowsAuthorization | src/mqttServer/MqttServer.ts:106-111 | A bad non-empty protocol header is refused even when `authorization` holds a good token |
| MqttGateway.UrlQueryBetweenMarks | src/mqttServer/MqttServer.ts:151 | The query is the text between the first and second `?` |
| MqttGateway.UrlWithoutQuery | src/mqttServer/MqttServer.ts:151 | A URL without `?` has no query |
| MqttGateway.LeadingParam | src/mqttServer/MqttServer.ts:151-156 | A parameter that comes first in the query is read back, whether or not more parameters follow |
| MqttGateway.TokenParameterRead | src/mqttServer/MqttServer.ts:151-156 | `?token=t` yields `t`, also when more parameters follow |
| MqttGateway.AuthorizationBeforeToken | src/mqttServer/MqttServer.ts:154-159 | On the secure WebSocket, a truthy `authorization` header wins over the query token |
| MqttGateway.Normalize | src/mqttServer/MqttServer.ts:195-200 | Normalization leaves only proper path segments |
| MqttGateway.Resolve | src/mqttServer/MqttServer.ts:195-200 | `path.resolve` always yields an absolute path |
| MqttGateway.NormalizeClean | src/mqttServer/MqttServer.ts:195-200 | Proper segments pass through normalization unchanged |
| MqttGateway.ResolveRooted | src/mqttServer/MqttServer.ts:195-200 | An absolute normalized path resolves to itself |
| MqttGateway.ResolveIdempotent | src/mqttServer/MqttServer.ts:195-200 | Resolving twice is resolving once |
| MqttGateway.ReadFileSync | src/mqttServer/MqttServer.ts:188-200 | A successful read implies the file exists |
| MqttGateway.EnvCertSource | src/mqttServer/MqttServer.ts:184-193 | The certificate comes from the truthy full-chain path, else from the certificate path |
| MqttGateway.FileAtResolved | src/mqttServer/MqttServer.ts:184-219 | Existence and reads see a path and its resolution alike |
| MqttGateway.SslFromEnvironment | src/mqttServer/MqttServer.ts:184-205 | With readable key and certificate from the environment, the bundle holds those bytes. It is missing iff a distinct chain file exists but cannot be read |
| MqttGateway.SslChainRule | src/mqttServer/MqttServer.ts:195-200 | `ca` is attached iff the chain path is truthy, differs from the resolved certificate path, and exists, and it then holds the chain file's bytes |
| MqttGateway.SslFallback | src/mqttServer/MqttServer.ts:208-222 | Without the environment files, the `./ssl` key and certificate pair is used if both exist, else there is no bundle |
| MqttGateway.SslReadFailureIsFinal | src/mqttServer/MqttServer.ts:223-226 | A read error on the environment files gives no bundle, with no fallback |
| MqttGateway.ChainComparedUnresolved | src/mqttServer/MqttServer.ts:195-200 | A relative chain path equal to the relative certificate path still attaches the certificate as `ca` |
| MqttGateway.GetSSLOptions | src/mqttServer/MqttServer.ts:175-227 | The lookup, with its early returns and fallback loop, yields the bundle the rules above define |
| MqttGateway.ListenerGating | src/mqttServer/MqttServer.ts:74-85 | TCP then HTTP always listen; HTTPS listens iff a truthy secure port and a bundle exist |
| MqttGateway.ClosesOfMembers | src/mqttServer/MqttServer.ts:229-247 | The close walk closes exactly the created listeners among those visited, each once |
| MqttGateway.StopClosesCreated | src/mqttServer/MqttServer.ts:229-247 | `stop` closes exactly the created listeners, each once, then closes the broker last |
| MqttGateway.MqttServer.constructor | src/mqttServer/MqttServer.ts:21-31 | Keeps the three ports; nothing is created and nothing has happened |
| MqttGateway.MqttServer.Start | src/mqttServer/MqttServer.ts:33-86 | Creates the TCP, HTTP and WebSocket servers, and the secure pair iff enabled with a bundle; its effects are the start events |
| MqttGateway.MqttServer.StartWebSocketServer | src/mqttServer/MqttServer.ts:88-125 | Creates the HTTP and WebSocket servers and listens on the WebSocket port |
| MqttGateway.MqttServer.StartWebSocketSecureServer | src/mqttServer/MqttServer.ts:127-173 | Without a bundle nothing changes; with one, the HTTPS and secure WebSocket servers exist with that bundle and listen |
| MqttGateway.MqttServer.OnWsConnection | src/mqttServer/MqttServer.ts:102-118 | The stream goes to the broker iff admitted, else the socket is closed |
| MqttGateway.MqttServer.OnWssConnection | src/mqttServer/MqttServer.ts:148-166 | The same for the secure server, with its credential choice |
| MqttGateway.MqttServer.Stop | src/mqttServer/MqttServer.ts:229-247 | Appends the close of each created listener, in field order, then the broker's close |
| MqttGateway.MqttServer.PublishMessage | src/mqttServer/MqttServer.ts:263-270 | Publishes one non-retained packet with the given topic, payload and QoS |
| SessionController.OrNull | src/webServer/controllers/SessionController.ts:61-63 | The or-null default keeps a truthy value and maps the rest to null |
| SessionController.ValidateSessionAccepts | src/webServer/controllers/SessionController.ts:24-41 | A session passes iff all required fields are truthy, its type is known and its objective is set. Every refusal is a 400 |
| SessionController.ValidateSessionOrder | src/webServer/controllers/SessionController.ts:24-41 | Missing fields are reported before an unknown type, which is reported before a missing objective |
| SessionController.ZeroIsMissing | src/webServer/controllers/SessionController.ts:24-26 | A zero distance, calories, pace or time counts as missing |
| SessionController.FreeNeedsNoObjective | src/webServer/controllers/SessionController.ts:33-41 | A complete "free" session needs no objective |
| SessionController.SessionIdInjective | src/webServer/controllers/SessionController.ts:51 | Equal session ids mean the same user text and the same second |
| SessionController.DistinctUsersDistinctIds | src/webServer/controllers/SessionController.ts:51 | Two users creating sessions in the same second get different ids |
| SessionController.PostSession | src/webServer/controllers/SessionController.ts:21-74 | An absent or `null` body makes the handler throw. Otherwise the session is saved iff it is valid and the store succeeds; validation errors come first; a store failure is a 500 |
| SessionController.SavedRecordShape | src/webServer/controllers/SessionController.ts:47-64 | The record carries the derived id and day, copies the payload's fields, nulls falsy optionals, and meets its type's objective |
| SessionController.ListQuery | src/webServer/controllers/SessionController.ts:98-122 | An empty `user_id` is a 400. Otherwise the user filter is `parseInt(user_id)` (white space skipped, `0x` read as hexadecimal), and a day range applies iff both bounds are truthy |
| SessionController.OneBoundIgnored | src/webServer/controllers/SessionController.ts:120-122 | With only one bound given, the query selects by user alone |
| SessionController.PutSession | src/webServer/controllers/SessionController.ts:136-151 | An absent or `null` body makes the handler throw, whatever the id. Otherwise an update happens iff the id and title are truthy, and a refusal is a 400 |
| SessionController.ApplyTitleOnlyTitle | src/webServer/controllers/SessionController.ts:148-151 | The update keeps the length, changes only titles, and leaves every session with another id as it is |
| SessionController.ApplyTitleFirstMatch | src/webServer/controllers/SessionController.ts:148-151 | The first session with the id gets the new title and every later session is left as it is |
| EventController.PostEvent | src/webServer/controllers/EventController.ts:10-70 | An absent body makes the handler throw with no effect. Otherwise the route's reply and effects are those of the event specification |
| EventController.SessionIdFirst | src/webServer/controllers/EventController.ts:12-14 | Without a session id, the reply is 400 before anything else |
| EventController.AcceptedEvent | src/webServer/controllers/EventController.ts:24-66 | An accepted event has a known lower-case type, the caller as friend and the clock as timestamp. It is stored, then published to `event/<owner>/` |
| EventController.AudioNameIffFile | src/webServer/controllers/EventController.ts:30-34 | `audio_name` is set iff a file was sent, and the file is saved first |
| EventController.UpperCaseSkipsRequirements | src/webServer/controllers/EventController.ts:16-42 | "AUDIO" needs no file and "TEXT" no text, and both are stored lower-cased |
| EventController.TextCheckedAfterAudioSave | src/webServer/controllers/EventController.ts:30-42 | A text event with a file but no text is refused after its file was saved |
| EventController.UnknownSessionNotUpdated | src/webServer/controllers/EventController.ts:48-51 | An unknown session neither updates nor publishes |
| EventController.MissingTypeValueCrashes | src/webServer/controllers/EventController.ts:16-18 | A type field without a value makes the handler throw |
| UserAccounts.DefaultAdminEmailMatches | src/entity/User.ts:43 | The administrator's address passes the e-mail rule |
| UserAccounts.SimpleAddress | src/entity/User.ts:71 | `local@name.tld`, with a non-empty local part and label of allowed characters and a two-to-four-character last label, passes the e-mail rule |
| UserAccounts.TwoLabelDomain | src/entity/User.ts:71 | `name.tld` with a two-to-four-character last label passes the domain part of the rule |
| UserAccounts.AddressAt | src/entity/User.ts:71 | A non-empty local part, `@` and a matching domain pass the e-mail rule |
| UserAccounts.EmailNeedsDottedDomain | src/entity/User.ts:71 | An address without a dot after `@`, or with a last label shorter than two, is refused |
| UserAccounts.RangeAdmitsPlusAndComma | src/entity/User.ts:76 | A password that meets the other conditions and contains `+` or `,` is accepted, because the range `*-\.` takes them in |
| UserAccounts.CreateUser | src/entity/User.ts:69-93 | Checks e-mail, then password, then duplicates, each with its own error. On success it appends one row with the default role and returns the new id |
| UserAccounts.CreateUserKeepsEmailsUnique | src/entity/User.ts:80-92 | A successful sign-up keeps e-mails unique and registers the address |
| UserAccounts.SecondSignUpRefused | src/entity/User.ts:80-84 | Signing up again with the same address fails with "Email already exists" |
| UserAccounts.Login | src/entity/User.ts:95-114 | Unknown e-mail, then hash mismatch, then unreadable roles are the errors. Success returns the first matching row's id, names, e-mail and parsed roles, never the hash |
| UserAccounts.LoginAfterCreate | src/entity/User.ts:69-114 | Logging in right after sign-up with the same password returns the new account with role ROLE_USER |
| UserAccounts.InitializeDefaultUser | src/entity/User.ts:38-58 | The administrator row is inserted iff the table is empty |
| UserAccounts.AdminPasswordBypassesRule | src/entity/User.ts:44 | The administrator's password would fail the sign-up password rule |
| UserAccounts.DefaultUserOnce | src/entity/User.ts:38-58 | A second start inserts nothing |
| NotificationService.OrDefault | src/tools/NotificationService.ts:42-44 | The or-default fallback is never empty and keeps a truthy value |
| NotificationService.MessageFor | src/tools/NotificationService.ts:37-46 | A message copies title, body, data, badge and ttl, and defaults sound and priority |
| NotificationService.BuildMessages | src/tools/NotificationService.ts:37-46 | One message per token, in order, addressed to its token, all otherwise identical |
| NotificationService.RecipientsOfBuild | src/tools/NotificationService.ts:37-38 | The batch's addresses are exactly the tokens, in order |
| NotificationService.SendNotifications | src/tools/NotificationService.ts:29-75 | No tokens means no request and "No expo token". Otherwise the messages are sent, success iff the response is OK and parses, and every failure carries its error text |
| NotificationService.FirstTicket | src/tools/NotificationService.ts:89 | The first ticket exists iff the response has a non-empty `data` |
| NotificationService.SendSingleNotification | src/tools/NotificationService.ts:77-92 | Sends one message to the token; success returns the first ticket, failure passes the error through |
| NotificationService.SingleAlwaysSends | src/tools/NotificationService.ts:81 | A single send always makes a request, even for an empty token |
| NotificationService.SingleIsBatchOfOne | src/tools/NotificationService.ts:77-92 | A single send agrees with a batch of one on request, success and error |
| NotificationService.DefaultsWithoutOptions | src/tools/NotificationService.ts:31-46 | With no options, each message carries only its address and the default sound and priority |

## Notes on the model

- **Gateway stop.** `stop` never clears the handle fields. Calling it twice closes the same listeners twice. The five `if`s of `stop` are written as one walk over the fields in source order.
- **Certificate chain.** In the TLS lookup, the chain path is compared unresolved against the resolved certificate path. So a relative chain path equal to a relative certificate path still attaches the certificate as `ca` (`ChainComparedUnresolved`).
- **Lookup errors.** Any read error in the lookup returns no bundle at once, without trying the `./ssl` files.
- **`path.resolve`.** It is modelled on `/`-separated POSIX paths, with a current directory that is absolute.
- **Friend ids.** `fetchFriendIds` is typed with a string user id, while the rows hold numbers. Ids are compared with strict equality, as `!==` and `includes` do. So with a text user id and numeric rows, the user's own row is never excluded: the user's number comes back among their own friend ids unless a blocker row names it (`OwnNumericIdKept`).
- **Custom-run audios.** `CreateCustomRun` returns the first insert's id once both statements are issued; the model does not follow the database driver further. The driver refuses an `undefined` bind value, so a link without `start_time` or `start_distance` makes the second insert throw after the first has been stored. An empty `audios` array gives `VALUES ` with no tuple, which the database rejects the same way. In both cases the route throws instead of returning the id.
- **Event friend id.** `friend_id` is the token's `user_id`. The login token carries no such field, so `friendId` is optional; `None` stands for the field `JSON.stringify` drops.
- **Event type case.** The type test lower-cases the value (ASCII lower-casing, which is exact for the three accepted words). The per-type requirements compare the raw value.

## Left out

- The SIGINT handler of the MQTT server (src/mqttServer/MqttServer.ts:26-30) and `process.exit`: OS signals.
- `getConnectedClients` (src/mqttServer/MqttServer.ts:259-261): it reads broker internals. Aedes topic matching, QoS delivery, retained messages and keep-alive are left out; the broker appears only as recorded `handle`, `publish` and `close` events.
- Socket, HTTP and HTTPS creation, `listen` callbacks and `createWebSocketStream`: these are recorded as events. The WebSocket manager's `close` (src/websocketServer/WebSocketServer.ts:194-197) only closes transports and is not modelled.
- `generateClientId` (src/websocketServer/WebSocketServer.ts:120-122): clock and randomness, so the id is a parameter of `Connect`.
- WebSocketRegistry.WebSocketManager.GetChannels: returns a set, so the order of `Array.from` is not stated.
- A `channel` in an incoming WebSocket message that is a JSON non-string is not modelled; a channel is text or absent.
- URLSearchParams percent-decoding and `+`-as-space are not modelled; query values are taken verbatim.
- RS256 signature checking, bcrypt hashing and comparison, and `JSON.parse` of stored roles: these are cryptography or foreign parsing, represented by an abstract decoder, an input hash, a comparison parameter and a parsing parameter.
- The MySQL and MongoDB calls themselves: query results are inputs and writes are returned values.
  - The e-mail lookup is modelled as exact equality; the database collation may compare case-insensitively.
  - `SELECT` order is taken as table order.
  - The `UNIQUE` constraint on `user.email` is not modelled; the code's own duplicate check is.
- The `GET /session/:id` and `DELETE /session/:id` routes (src/webServer/controllers/SessionController.ts:76-96, 162-181) and the audio download route (src/webServer/controllers/EventController.ts:72-87): plain store reads and deletes.
- Floats are modelled as follows:
  - session figures are JSON values, with non-integer numbers kept as their text;
  - custom-run distances and durations, and push badge and ttl, are reals that are copied unchanged.
- Notification `data` values are modelled as strings. The push URL, request headers and `JSON.stringify` of the batch are not modelled.
- JsValues.IntToString: writes every integer in plain decimal. JavaScript numbers are doubles: `${n}` switches to exponent form from 10^21 on (`1e+21`), and integers above 2^53 are not exact. Integer values are taken to lie below 2^53, which also holds for the ids and Unix times the routes print.
- SessionController.SessionId: shares that assumption, so its text agrees with `` `${user_id}-…` `` only for integer user ids of magnitude below 10^21.
- JsValues.ParseInt: returns the exact value of the digits read. `parseInt` rounds a value above 2^53 to the nearest double; the model does not.
- The `$sort: { reference_day: 1 }` stage of the per-user listing (src/webServer/controllers/SessionController.ts:116-118) is not modelled: the model states which sessions the `$match` selects, not the order in which the route returns them.
- UserAccounts.StrongPassword: counts Unicode scalar values. JavaScript's `.{8,}` counts UTF-16 code units, so a password with characters outside the Basic Multilingual Plane can be long enough there and too short here.
- Database DDL (`initializeDatabase` in src/entity/User.ts and src/entity/CustomRun.ts), `getUserById` and the SQL connection pool: startup plumbing.
- Concurrency: each handler invocation is one sequential step.
