# Verification of the GameLift toolkit's protocols

This project models three parts of the toolkit in Dafny and proves what they promise.

**The player gateway testing app** (`Text`, `Base64`, `Tokens`, `Commands`, `Sources`, `RoundRobin`,
`ServerSide`, `Connections`, `Stages`, `Ports`, `Stats`, `Proxies`, `ToolMessages`, `Relay*`). A UDP relay of two hops: each
player has several client-side endpoints, which check a 28-byte token, replace it by the player number and
forward the packet to one server-side proxy; that proxy strips the number, gives each player a port of their own
towards the game server, and spreads the answers over the player's recently active endpoints. Each object of the
program is a class whose methods are proved equal to a step on values; `Relay` puts these steps together into a
state machine of clients, endpoints, network, server-side proxy and game server, in which datagrams may be lost,
delayed and reordered, and the isolation theorems are about all its runs.

**The multi-build solution** (`Keys`, `Publish`, `PublishFiles`, `PublishNames`, `PublishUpdates`, `PublishLosses`,
`PublishDirectories`, `Launch`). Uploaders, the S3 sync sidecar, the
container's wrapper script and the Go SDK wrapper share only files and markers. Every step of every script is one
transition, and transitions interleave in any order; syncs can fail part-way, and the sidecar and the container
can restart at any time.

**The SSH enabler's prompt and command handshake** (`Handshake`). Two goroutines over a one-slot channel that is
closed part-way.

A value-level function says what a step does; the lemmas say what follows from it. Histories (what was sent, what
was accepted, which versions an update marker covered) are fields of the states, never consulted by a step that
models the program.

## What was found

- A token shorter than 28 base64 characters can be installed by a packet, and then some packet makes the first hop
  slice out of range: `RelayFaults.ShortTokenCrashes` is a run, `Tokens.FaultReachableIff` and
  `Tokens.ShortAfterReplaceIff` say when. `RelayFaults.CrashesExactlyWhen` says when the relay panics at all.
- A list of players that makes the message longer than the endpoint's buffer is accepted by the tool and cut when it
  is read: `ToolMessages.GetDetailsArrivesIff` says when that matters.
- The round-robin index is reduced modulo the previous number of active endpoints, so a reply can index out of
  range after endpoints went quiet: `RoundRobin.FaultIff` says exactly when, and `RelayRotation.IdleEndpointCrashes`
  is a run of the relay: two packets, an answer, a second of silence, another answer.
- The product of endpoints and players in the port range check can overflow; an accepted range holds all the
  ports exactly when it does not: `Ports.AcceptedRangeHoldsAllIff`.
- The upload marker vouches for another file only if its name comes before the file's in the listing: a file such as
  ".env", uploaded while a listing of several pages is read, is missed although the marker is seen
  (`PublishNames.DotEnvIsMissed`), and a build directory that already contains an upload marker is marked early.
  `PublishNames.FileExactlyWhen` is exact file by file, whatever else is shipped; `PublishFiles.WholeWhenOrderly` is
  what holds of listings that take one page.
- A sync that fails after the ETag was stored, a restart between copying and marking, and two uploads in the same
  second each leave a build unmarked until someone writes the update marker again (a restart may do, if it finds
  something to copy): `PublishLosses` has the general statements and a run of each.
  `PublishUpdates.ArrivesExactlyWhen` says exactly when a build, whatever it ships, is marked.
- The server-side proxy publishes its statistics under port 0, the number it asked for, so that the collector ignores
  them; they still take places in the channel.
- The wrapper looks at the game server once, two seconds after its launch; if it dies right after that, the session is activated
  on a server that is no more (`Launch.DeadServerIsActivated`).
- If the server-side proxy cannot get a socket for one player it stops for all of them (`RelayStops.ServerStoppedExactlyWhen`,
  `RelayStops.ServerStoppedForGood`).
- The handshake counts prompts and does not tell them apart: the next command can be typed without any further
  output exactly when more prompts than commands came before it (`Handshake.NextTypedWithoutOutputIff`).

Where comments and code disagree the model follows the code: the packet format that
`client_side_traffic_handler.go` gives (token, colon, player number) is not the one that is parsed, which is 28
token bytes and then game data; and a direct call of `ReplaceToken` (`token_manager.go`) gives the error for an empty
token only for an empty text, not for a text of line breaks, which no packet can carry.

## Model

| member | source | states |
|---|---|---|
| Tokens.NewTableInverse | player-gateway-testing-app/internal/token/token_manager.go:52-70 | The table built from a list of tokens is a pair of inverse structures exactly when the decoded tokens are pairwise distinct. |
| Tokens.TokenManager.constructor | player-gateway-testing-app/internal/token/token_manager.go:52-70 | The loop that fills the three structures builds exactly that table. |
| Tokens.TokenManager.ReplaceToken | player-gateway-testing-app/internal/token/token_manager.go:81-115 | The in-place update has the new state and the error of the specified replacement. |
| Tokens.ReplaceKeepsTable | player-gateway-testing-app/internal/token/token_manager.go:81-115 | One replacement keeps both structures inverse and matched; a failed one changes nothing; a successful one changes one player's token only, and the previous token is accepted for nobody. |
| Tokens.ReplaceAnswers | player-gateway-testing-app/internal/token/token_manager.go:81-101 | The answer in every case, in the order of the checks: no text, no base64 text, no such player, another player's token, else success; what base64 text is, is said of the characters. |
| Tokens.ReplaceSucceedsIff | player-gateway-testing-app/internal/token/token_manager.go:72-101 | It succeeds exactly for a non-empty text that is base64 once its line breaks are gone, of an existing player, when no other player holds what it decodes to. |
| Tokens.InverseForever | player-gateway-testing-app/internal/token/token_manager.go:52-115 | After any sequence of successful and failed replacements the structures are inverse and matched. |
| Tokens.AbsentUntilReinstalled | player-gateway-testing-app/internal/token/token_manager.go:105-112 | A token that nobody holds stays unaccepted through any sequence of replacements that does not install it. |
| Tokens.EmptyTokenInstalledIff | player-gateway-testing-app/internal/token/token_manager.go:81-89 | Called directly, ReplaceToken installs the empty token exactly for a non-empty text of line breaks; packets carry no such text (next row). |
| Commands.NoPacketInstallsEmptyToken | player-gateway-testing-app/internal/proxy/client_side_traffic_handler.go:138-191 | Whatever a packet holds, handling it gives no player the empty token: the text of a parsed command has no line break at its end. |
| Tokens.ShortAfterReplaceIff | player-gateway-testing-app/internal/token/token_manager.go:81-115 | After a successful replacement some base64 token is too short to slice exactly when the new one is or another player's was. |
| Tokens.AcceptedIff | player-gateway-testing-app/internal/token/token_manager.go:216-238 | A packet is accepted for player p exactly when it starts with p's current 28-byte token. |
| Tokens.RejectedBecause | player-gateway-testing-app/internal/token/token_manager.go:216-248 | A packet that is rejected is too short, or starts with some stored base64 token, or neither, and the error says which. |
| Tokens.RewrittenIs | player-gateway-testing-app/internal/token/token_manager.go:228-235 | An accepted packet is rewritten to the player's number in decimal digits, a bar and what follows the first 28 bytes. |
| Tokens.ServerSideIff | player-gateway-testing-app/internal/token/token_manager.go:259-275 | The second hop reads player p and game data exactly from a text that is a number p up to the first bar and the data behind it. |
| Tokens.ScanStops | player-gateway-testing-app/internal/token/token_manager.go:239-248 | The search stops at the first base64 token that is too short to slice (a fault) or that the packet starts with (the answer meant for it); without one the packet is a mismatch. |
| Tokens.TwoHopRoundTrip | player-gateway-testing-app/internal/token/token_manager.go:228-275 | The rewritten packet parses back to the same player and game data, whatever bytes these hold, and is shorter than the original. |
| Tokens.FaultReachableIff | player-gateway-testing-app/internal/token/token_manager.go:239-245 | Some packet makes the slice expression panic exactly when some installed base64 token is shorter than 28 characters. |
| Tokens.OddLengthTokenUnusable | player-gateway-testing-app/internal/token/token_manager.go:216-238 | A token that does not decode to 28 bytes is accepted for nobody. |
| Tokens.GeneratedTokenShape | player-gateway-testing-app/internal/token/token_manager.go:178-187 | A generated token has 40 characters and decodes, without error, to its 28 hex digits. |
| Tokens.GeneratedTableIff | player-gateway-testing-app/internal/token/token_manager.go:52-70 | Built from drawn bytes, the table matches its base64 tokens, and it is a pair of inverse structures exactly when no two players were drawn the same bytes. |
| Tokens.HexTokenFirstSymbol | player-gateway-testing-app/internal/token/token_manager.go:182-187 | The base64 form of hex digits starts with one of five capital letters, so it is no hex token itself. |
| Tokens.Base64PacketAnswered | player-gateway-testing-app/internal/token/token_manager.go:239-246 | With generated tokens, a packet that starts with a player's base64 token always gets the answer meant for it. |
| Base64.DecodeEncode | player-gateway-testing-app/internal/token/token_manager.go:182-203 | Decoding undoes encoding for all byte strings (section 4 of RFC 4648). |
| Base64.DecodesIff | player-gateway-testing-app/internal/token/token_manager.go:197-203 | A text decodes exactly when, without its line breaks, its length is a multiple of four and its characters are the 64 symbols of section 4 of RFC 4648, written out, but for one or two '=' at the very end; it then decodes to the bytes, as many as the length and the padding say, whose bits the symbols spell. |
| Base64.EncodeSpells | player-gateway-testing-app/internal/token/token_manager.go:182-187 | What is encoded is such a text, without line breaks, and its symbols spell the bytes. |
| Base64.SymbolsAreAlphabet | player-gateway-testing-app/internal/token/token_manager.go:182-203 | The value of a symbol is its place in the alphabet written out, for encoding and decoding alike; no other character has one. |
| Base64.LineBreaksAreSkipped | player-gateway-testing-app/internal/token/token_manager.go:197-203 | Line feeds and carriage returns may stand anywhere and make no difference. |
| Base64.DecodesToNothingIff | player-gateway-testing-app/internal/token/token_manager.go:197-203 | Only line breaks decode to nothing. |
| Text.AtoiItoa | player-gateway-testing-app/internal/token/token_manager.go:230-275 | Printing a 64-bit integer and parsing it back is the identity. |
| Text.AtoiIff | player-gateway-testing-app/internal/token/token_manager.go:265-270 | A text parses as n exactly when it is one or more decimal digits, with or without a sign in front, that denote n, and n fits in 64 bits. |
| Text.ItoaLength | player-gateway-testing-app/internal/token/token_manager.go:230-235 | A non-negative 64-bit integer prints as at most 19 digits. |
| Text.CutIsFirst | player-gateway-testing-app/internal/token/token_manager.go:264-269 | Cutting at a delimiter splits at its first occurrence and loses nothing. |
| Text.JoinSplit | player-gateway-testing-app/internal/proxy/client_side_traffic_handler.go:235-235 | Splitting loses nothing and leaves no separator in a part. |
| Text.SplitTrim | player-gateway-testing-app/internal/proxy/client_side_traffic_handler.go:146-241 | Trimming a whole comma-separated list first makes no difference to its trimmed parts. |
| Text.TrimSpaceIs | player-gateway-testing-app/internal/proxy/client_side_traffic_handler.go:146-160 | Trimming leaves what lies between the first and the last character that is no white space. |
| Commands.TrafficIff | player-gateway-testing-app/internal/proxy/client_side_traffic_handler.go:67-100 | An endpoint lets through exactly the packets, no commands and not dropped, that start with its own player's current token, rewritten so that the second hop reads the player and the rest. |
| Commands.DropsItsPercentage | player-gateway-testing-app/internal/proxy/client_side_traffic_handler.go:218-225 | Of the hundred numbers that can be drawn, exactly as many drop a packet as the percentage says, and what is dropped at one percentage is dropped at every higher one. |
| Commands.DegradesItsPercentage | player-gateway-testing-app/internal/proxy/client_side_traffic_handler.go:67-87 | So exactly that many of the hundred draws degrade any packet that is no command, and none changes handler or table. |
| Commands.CommandText | player-gateway-testing-app/internal/proxy/client_side_traffic_handler.go:138-160 | A command packet is the name up to the first colon and the parameter behind it, white space around both aside; without a colon there is no parameter, and an empty text is malformed. |
| Commands.RequestIff | player-gateway-testing-app/internal/proxy/client_side_traffic_handler.go:152-243 | Which name and parameter are which request, with the names and the form of each parameter written out; everything else is malformed. |
| Commands.CommandEffects | player-gateway-testing-app/internal/proxy/client_side_traffic_handler.go:163-212 | What each request changes in handler and table, its answer, and that a percentage outside 0 to 100 counts as the nearer bound. |
| Commands.NumbersOfParts | player-gateway-testing-app/internal/proxy/client_side_traffic_handler.go:233-243 | The parts of a list are read one by one wherever they stand: a number is kept, anything else is left out. |
| Commands.PreprocessKeeps | player-gateway-testing-app/internal/proxy/client_side_traffic_handler.go:67-212 | Whatever packet arrives, the token table stays sound and the degradation between 0 and 100. |
| Commands.TokenPacketIsNoCommand | player-gateway-testing-app/internal/proxy/client_side_traffic_handler.go:68-82 | With generated tokens, no packet that starts with a token, plain or base64, is taken for a command. |
| Commands.ReplaceTokenAcceptsIff | player-gateway-testing-app/cmd/replace-token/replace_token.go:37-49 | The tool prints a message exactly for a player from 1 on and a port from 1 to 65535, and the message is the command with the number and the generated token. |
| Commands.SetDegradationAcceptsIff | player-gateway-testing-app/cmd/set-degradation/set_degradation.go:36-47 | The tool prints a message exactly for a percentage from 0 to 100 and a port from 1 to 65535, and the message is the command with that percentage. |
| Commands.GetDetailsAcceptsIff | player-gateway-testing-app/cmd/get-player-connection-details/get_player_connection_details.go:38-57 | The tool prints a message exactly for a list all of whose parts are numbers, white space around them aside, and a port from 1 to 65535; the message holds the list as it was given. |
| ToolMessages.ReplaceTokenRoundTrip | player-gateway-testing-app/cmd/replace-token/replace_token.go:37-49 | The printed command, as the endpoint reads it into its buffer, makes it carry out exactly the replacement of that player's token by the generated one. |
| ToolMessages.SetDegradationRoundTrip | player-gateway-testing-app/cmd/set-degradation/set_degradation.go:36-47 | The printed command, as read, sets exactly the printed percentage; the clamp changes nothing. |
| ToolMessages.GetDetailsArrivesIff | player-gateway-testing-app/cmd/get-player-connection-details/get_player_connection_details.go:45-57 | For every list the tool accepts, the endpoint, which reads 8192 bytes at most, reads exactly the accepted numbers exactly when what is cut off holds no comma and is blank or the rest of a number zero. |
| ToolMessages.GetDetailsRoundTrip | player-gateway-testing-app/cmd/get-player-connection-details/get_player_connection_details.go:45-57 | So every message of at most 8192 bytes arrives, number by number in order, wherever there are spaces around them. |
| ToolMessages.LongListIsLost | player-gateway-testing-app/cmd/get-player-connection-details/get_player_connection_details.go:50-57 | A list of 9000 ones is accepted by the tool and is not what the endpoint reads. |
| Commands.ClientSideProxyTrafficHandler.constructor | player-gateway-testing-app/internal/proxy/client_side_traffic_handler.go:25-50 | A new handler drops nothing and has no requested numbers. |
| Commands.ClientSideProxyTrafficHandler.PreprocessServerBoundTraffic | player-gateway-testing-app/internal/proxy/client_side_traffic_handler.go:67-100 | The in-place handler has the state, the token table and the result of the specified step. |
| Commands.ClientSideProxyTrafficHandler.ParseConfigCommand | player-gateway-testing-app/internal/proxy/client_side_traffic_handler.go:138-169 | Likewise for a command, from its text. |
| Commands.ClientSideProxyTrafficHandler.SetDegradationTo | player-gateway-testing-app/internal/proxy/client_side_traffic_handler.go:200-212 | Likewise for SetDegradation. |
| Commands.ClientSideProxyTrafficHandler.ReplaceTokenWith | player-gateway-testing-app/internal/proxy/client_side_traffic_handler.go:179-191 | Likewise for ReplaceToken. |
| Commands.ClientSideProxyTrafficHandler.ParsePlayerNumbers | player-gateway-testing-app/internal/proxy/client_side_traffic_handler.go:233-243 | The loop collects the numbers of the list in order and skips what is no number. |
| Sources.ReceiveKeepsInv | player-gateway-testing-app/internal/proxy/server_side_traffic_handler.go:48-64 | A packet from an endpoint keeps the source-table invariant: equal keys, distinct addresses, the last-used entry listed and newest. |
| Sources.SendKeepsInv | player-gateway-testing-app/internal/proxy/server_side_traffic_handler.go:77-108 | So does a packet from the game server. |
| Sources.InvAlways | player-gateway-testing-app/internal/proxy/server_side_traffic_handler.go:48-108 | The invariant holds after every run under a clock that does not go back. |
| Sources.FallbackIff | player-gateway-testing-app/internal/proxy/server_side_traffic_handler.go:83-100 | The fallback fires exactly when the last-used entry is at least a second old, and traffic is blocked exactly when it is at least a minute old. |
| Sources.ReplyGoesTo | player-gateway-testing-app/internal/proxy/server_side_traffic_handler.go:83-108 | After every run of packets and replies, told from its history: a reply is blocked exactly when nothing was heard for the player within the last minute; otherwise, unless it faults, it goes to an endpoint heard within the last second, and if there is none, to the one that was heard last. |
| Sources.SentTo | player-gateway-testing-app/internal/proxy/server_side_traffic_handler.go:83-108 | The same of the table, with the clock read anew for each entry. |
| Sources.HeardChanges | player-gateway-testing-app/internal/proxy/server_side_traffic_handler.go:48-64 | A packet heard adds its address at the end of the player's list or renews the entry where it stands, and changes nothing for others. |
| Sources.ReplyChanges | player-gateway-testing-app/internal/proxy/server_side_traffic_handler.go:83-108 | A blocked reply forgets all about the player; another one changes nothing but the player's index. |
| Sources.HistoryAlways | player-gateway-testing-app/internal/proxy/server_side_traffic_handler.go:48-108 | Every entry stands for a packet heard from that address at that time, and everything heard within the last minute has an entry at least as recent. |
| Sources.RotationIsHistory | player-gateway-testing-app/internal/proxy/server_side_traffic_handler.go:83-143 | The active endpoints are exactly those heard within the last second, each once; a player is blocked exactly when nothing was heard for a minute. |
| RoundRobin.TurnsInOrder | player-gateway-testing-app/internal/proxy/server_side_traffic_handler.go:102-107 | While the same endpoints take turns, replies go round in order from the stored index. |
| RoundRobin.Fair | player-gateway-testing-app/internal/proxy/server_side_traffic_handler.go:93-107 | Over n replies while the same k endpoints take turns, each is chosen floor(n/k) or ceil(n/k) times. |
| RoundRobin.IndexFromLastTurn | player-gateway-testing-app/internal/proxy/server_side_traffic_handler.go:103-104 | After every run the stored index is one past the last place chosen, modulo and hence below the number of endpoints of that turn. |
| RoundRobin.FaultIff | player-gateway-testing-app/internal/proxy/server_side_traffic_handler.go:83-106 | The next reply indexes out of range exactly when it is not blocked, an earlier one was forwarded, and by now no more endpoints take turns than the index left by it. |
| RoundRobin.NeverShrinksNeverFaults | player-gateway-testing-app/internal/proxy/server_side_traffic_handler.go:93-106 | A run in which the number of endpoints taking turns never shrinks between replies never faults. |
| RoundRobin.TwoEndpointsThenIdleFaults | player-gateway-testing-app/internal/proxy/server_side_traffic_handler.go:97-106 | The source table of such a run, after which the next reply faults. |
| RelayRotation.IdleEndpointCrashes | player-gateway-testing-app/internal/proxy/server_side_traffic_handler.go:97-106 | A run from every start at which some player has two endpoints: a token packet to each, an answer of the game server, a second in which nobody sends, and a second answer make the server-side proxy panic. |
| ServerSide.ServerSideProxyTrafficHandler.FindClientInfo | player-gateway-testing-app/internal/proxy/server_side_traffic_handler.go:119-126 | The scan finds the first entry with the address, or none. |
| ServerSide.ServerSideProxyTrafficHandler.FilterActiveSources | player-gateway-testing-app/internal/proxy/server_side_traffic_handler.go:135-143 | The loop keeps, in order, exactly the entries less than a second old by the clock reading made for each. |
| Sources.OneReadingWillDo | player-gateway-testing-app/internal/proxy/server_side_traffic_handler.go:85-106 | When no entry turns a second old while they are looked at, the separate readings of the clock give what one reading gives. |
| Sources.ReadingsBetween | player-gateway-testing-app/internal/proxy/server_side_traffic_handler.go:135-143 | In general every entry active at the last reading takes its turn, and none that was not active at the drop test. |
| ServerSide.ServerSideProxyTrafficHandler.PreprocessServerBoundTraffic | player-gateway-testing-app/internal/proxy/server_side_traffic_handler.go:48-64 | The three maps, with entries shared between them and updated in place, have the specified new value. |
| ServerSide.ServerSideProxyTrafficHandler.HandleClientBoundTraffic | player-gateway-testing-app/internal/proxy/server_side_traffic_handler.go:77-108 | Likewise for a packet from the game server: block and forget, send in turn, or fault, with one clock reading for the drop test and one for each entry. |
| Connections.InverseForever | player-gateway-testing-app/internal/proxy/client_connection.go:70-172 | With fresh ports from the operating system, players and ports are in one-to-one correspondence after any sequence of get-or-create, close, send and socket-loop steps. |
| Connections.SameConnection | player-gateway-testing-app/internal/proxy/client_connection.go:70-75 | A player who is not closed keeps one and the same connection and recorded client address; every get-or-create returns it. |
| Connections.FirstClientKept | player-gateway-testing-app/internal/proxy/client_connection.go:88-109 | The recorded address is that of the packet for which the connection was made, through any later operations that do not close the player. |
| Connections.ClientConnectionPool.GetOrCreateClientConnection | player-gateway-testing-app/internal/proxy/client_connection.go:70-120 | The pool in place: the existing connection, or a new one entered in both maps and published, or a failure that changes nothing. |
| Connections.ClientConnectionPool.CloseClientConnection | player-gateway-testing-app/internal/proxy/client_connection.go:156-172 | Both entries go, that connection's socket and channel are closed and no other's, and the disconnect is published. |
| Connections.ClientConnectionPool.CloseAll | player-gateway-testing-app/internal/proxy/proxy.go:293-297 | The closing loop empties both maps, closes every socket and channel, and publishes exactly one disconnect for each player. |
| Connections.ClientConnectionPool.Send | player-gateway-testing-app/internal/proxy/proxy.go:252-256 | A non-blocking send keeps the packet exactly when the player's queue has room. |
| Connections.ClientConnectionPool.WriteNext | player-gateway-testing-app/internal/proxy/client_connection.go:209-212 | The oldest packet of the queue is the one written. |
| Stages.AcceptKeeps | player-gateway-testing-app/internal/proxy/proxy.go:247-256 | Accepting a packet keeps, for every player: written, then queued, is what was accepted less what found the queue full, in order and unaltered. |
| Stages.WriteKeeps | player-gateway-testing-app/internal/proxy/client_connection.go:205-212 | So does writing one. |
| Stages.WrittenOnce | player-gateway-testing-app/internal/proxy/client_connection.go:205-212 | No packet is written twice, and each player's packets are written in the order of acceptance. |
| Stages.AcceptedAccounts | player-gateway-testing-app/internal/proxy/proxy.go:252-256 | For every player, accepted = written + queued + overflowed. |
| RelayOverflow.DroppedOnlyWhenFull | player-gateway-testing-app/internal/proxy/proxy.go:252-256 | After every run, each packet that an endpoint accepted was received by a step of the run at which its player's queue had room, if it was kept, or held exactly 8192 packets, if it was not. |
| RelayOverflow.HopDroppedOnlyWhenFull | player-gateway-testing-app/internal/proxy/proxy.go:252-256 | The same at the server-side proxy. |
| RelayOverflow.BuffersBounded | player-gateway-testing-app/internal/proxy/proxy.go:133-134 | After every run no queue and no channel for packets on their way back holds more than 8192 packets, and the statistics channel no more than 100 events. |
| RelayStops.StoppedExactlyWhen | player-gateway-testing-app/internal/proxy/proxy.go:163-189 | After every run an endpoint has stopped exactly when one of the steps let a packet through for which the endpoint had no socket and got none; bad packets, drops, full queues and commands never stop it. |
| RelayStops.StoppedForGood | player-gateway-testing-app/internal/proxy/proxy.go:163-189 | A stopped endpoint never accepts, refuses or delivers anything again, whatever follows. |
| RelayStops.ServerStoppedExactlyWhen | player-gateway-testing-app/internal/proxy/proxy.go:163-189 | The server-side proxy has stopped exactly when one of the steps read a packet of a player for whom it had no socket and got none. |
| RelayStops.ServerStoppedForGood | player-gateway-testing-app/internal/proxy/proxy.go:163-189 | Then it takes and sends back nothing more, and its table of sources stays as it is. |
| Ports.BlockIsRange | player-gateway-testing-app/internal/app/app.go:173-192 | Player p owns exactly the ports from start + (p-1)E up to start + pE. |
| Ports.BlocksTile | player-gateway-testing-app/internal/app/app.go:173-192 | Every port has one owner, and the blocks of P players fill [start, start + EP) without overlap. |
| Ports.CreateClientSideProxies | player-gateway-testing-app/internal/app/app.go:164-195 | The nested loops open EP endpoints, the k-th on port start + k for its owner. |
| Ports.NewStatsCollector | player-gateway-testing-app/internal/stats/stats.go:67-78 | The collector's loops list exactly each player's block and start all counters of that range, and no others, at zero. |
| Ports.LoopsAgree | player-gateway-testing-app/internal/app/app.go:173-192 | A port is opened for a player exactly when the collector lists it for that player, exactly when it lies in the player's block. |
| RelayStart.StartIsInitialIff | player-gateway-testing-app/internal/app/app.go:90-192 | What the token manager, the collector and the opening loop leave is a start of the relay's runs, to which all run theorems apply, exactly when no two players were drawn the same bytes. |
| Ports.ParsePrintedRange | player-gateway-testing-app/internal/common/common.go:31-47 | A printed range of two numbers of at most five digits parses back to them. |
| Ports.RangeTextIff | player-gateway-testing-app/internal/common/common.go:31-47 | A text is read as a range exactly when it is two numbers of one to five digits around one dash. |
| Ports.RangeAcceptedIff | player-gateway-testing-app/cmd/flags.go:48-78 | An empty text is accepted; any other exactly when it is such a range, its numbers are in order and within 1..65535, and there are at least as many ports as the product of endpoints and players, wrapped to 64 bits. |
| Ports.PrintedRangeAcceptedIff | player-gateway-testing-app/cmd/flags.go:48-78 | While the product does not overflow, two printed numbers are accepted exactly when the endpoints' ports, counted from the first, lie in 1..65535 and do not go beyond the second. |
| Ports.AcceptedRangeHoldsAllIff | player-gateway-testing-app/cmd/flags.go:48-78 | An accepted range lies in 1..65535, and holds every endpoint's port exactly when the number of endpoints does not overflow. |
| Ports.OverflowAccepted | player-gateway-testing-app/cmd/flags.go:70-72 | Every range is accepted for four endpoints of 2^62 players, and holds too few ports. |
| Ports.FindAvailablePortRange | player-gateway-testing-app/internal/common/common.go:59-86 | The search returns the least start whose whole block is free, and nothing only if there is none. |
| Stats.StatsCollector.ProcessEvent | player-gateway-testing-app/internal/stats/stats.go:110-185 | The collector in place has the counters and connections of the specified step. |
| Stats.PublishAllKeeps | player-gateway-testing-app/internal/proxy/proxy.go:262-271 | Events are kept in order while the channel has room. |
| Stats.FullChannelDrops | player-gateway-testing-app/internal/proxy/proxy.go:262-271 | With a hundred events waiting, further ones are lost and change nothing. |
| Stats.PublishAllKeepsAtMost | player-gateway-testing-app/internal/proxy/proxy.go:262-271 | Publishing, which may drop, raises what can be counted for a port by no more than the events about it. |
| Stats.DrainCounts | player-gateway-testing-app/internal/stats/stats.go:110-153 | Every event that got into the channel is counted exactly once, for the port it is about, if that port is listed. |
| Stats.ConnectionsShown | player-gateway-testing-app/internal/stats/stats.go:176-185 | Once the channel is read, a player is shown as connected exactly when the last event about that was a connect, or without one, when they were before. |
| Stats.DegradationShown | player-gateway-testing-app/internal/stats/stats.go:160-172 | A listed endpoint is shown with the percentage of its last update, or without one, with that which it had. |
| Proxies.ClientSideProxy.constructor | player-gateway-testing-app/internal/proxy/proxy.go:118-153 | A new endpoint has empty maps, queues and channel. |
| Proxies.ClientSideProxy.HandleIncomingTraffic | player-gateway-testing-app/internal/proxy/proxy.go:197-259 | Handler, token manager, pool and queues in place, and the events published, are those of the relay's step for a received datagram. |
| Proxies.ClientSideProxy.HandleClientBoundTraffic | player-gateway-testing-app/internal/proxy/client_side_traffic_handler.go:111-122 | The oldest packet of the channel goes to the client recorded for its port, unless it is dropped. |
| Proxies.ClientSideProxy.HandleSocketTraffic | player-gateway-testing-app/internal/proxy/client_connection.go:205-212 | One write of the socket loop is the relay's write step. |
| Proxies.ClientSideProxy.Close | player-gateway-testing-app/internal/proxy/proxy.go:293-304 | Closing empties both maps of the pool, closes every connection and the listening socket, and publishes each disconnect once. |
| Proxies.ServerSideProxy.HandleIncomingTraffic | player-gateway-testing-app/internal/proxy/proxy.go:197-259 | Sources, pool and queues in place, and the events published, are those of the relay's step; a packet that does not parse changes nothing and is published as malformed. |
| Proxies.ServerSideProxy.HandleClientBoundTraffic | player-gateway-testing-app/internal/proxy/server_side_traffic_handler.go:77-108 | The oldest packet of the channel goes to the next endpoint in turn of the owner of its port, by separate clock readings. |
| RelayForward.StepAdvances | player-gateway-testing-app/internal/proxy/proxy.go:163-259 | Every step of the whole relay keeps the forward invariant: accepted entries are genuine, taken from the network once, queued and written unaltered. |
| RelayForward.RelayIsolation | player-gateway-testing-app/internal/proxy/client_side_traffic_handler.go:67-100 | After every run, each packet the game server got left player p's own port and was, in that run, sent by some client to one of p's own endpoints and received there at a moment when what was read of it was p's then current token followed by exactly this data. |
| RelayForward.AcceptedWereReceived | player-gateway-testing-app/internal/proxy/proxy.go:197-259 | Every accepted packet was received at its endpoint by a step of the run at which the token table it was checked against was the current one. |
| RelayForward.DistinctOrigins | player-gateway-testing-app/internal/proxy/client_connection.go:202-231 | Distinct packets to the game server come from distinct client datagrams. |
| RelayReturn.StepKeepsReturn | player-gateway-testing-app/internal/proxy/server_side_traffic_handler.go:77-108 | Every step keeps the return invariant: no port belongs to two players, and sources are ports of the player's own endpoints. |
| RelayReturn.ReturnIsolation | player-gateway-testing-app/internal/proxy/client_side_traffic_handler.go:111-122 | After every run, each packet an endpoint of player p delivered was sent by the game server to p's port, and went to the client that sent the first packet this endpoint accepted: one that began with p's token at the moment it was received. |
| RelayReturn.FirstClientsAlways | player-gateway-testing-app/internal/proxy/client_connection.go:88-109 | After every run, the client recorded for an endpoint's connection is the sender of the first packet that it accepted. |
| RelayDistinct.DistinctDeliveries | player-gateway-testing-app/internal/proxy/client_connection.go:214-229 | After every run, distinct deliveries, at one endpoint or at two, are of distinct datagrams of the game server. |
| RelayReturn.SourcesBounded | player-gateway-testing-app/internal/proxy/server_side_traffic_handler.go:54-61 | After every run, a player's source list is no longer than the player has endpoints. |
| RelayAccounts.SourcesWithinEndpointCount | player-gateway-testing-app/internal/app/app.go:173-192 | With the endpoints that the app opens, it is no longer than the endpoints per player. |
| RelayAccounts.EndpointAccounts | player-gateway-testing-app/internal/proxy/proxy.go:197-271 | After every run, at every endpoint: received = commands + degraded + rejected + unconnected + accepted; accepted = written + queued + overflowed, in order; the statistics exceed neither total, whatever the server-side proxy publishes through the same channel. |
| RelayStats.StatisticsAreExact | player-gateway-testing-app/internal/proxy/proxy.go:197-271 | After every run in which never more than 98 events wait for the collector, reading the rest of them leaves, for every listed endpoint, exactly how many packets were let through and how many were malformed. |
| RelayStats.ConnectionsAreExact | player-gateway-testing-app/internal/stats/stats.go:176-185 | And it leaves as connected, besides those shown from the start, exactly the players for whom some proxy has a socket. |
| RelayStats.CollectorCatchesUp | player-gateway-testing-app/internal/stats/stats.go:95-105 | Left alone, the collector reads all that waits in as many steps and changes nothing else. |
| RelayStats.HandleEffects | player-gateway-testing-app/internal/proxy/proxy.go:197-259 | What an endpoint publishes and books for a datagram in each case: command, drop, error, packet let through with or without a socket. |
| RelayStats.DeliversTheRest | player-gateway-testing-app/internal/proxy/client_side_traffic_handler.go:111-122 | On the way back, too, exactly as many of the hundred draws as the percentage says drop a packet; it is delivered otherwise, to the recorded client. |
| RelayDelivers.ForwardDelivers | player-gateway-testing-app/internal/proxy/proxy.go:197-259 | From every state of a run, a token packet gets to the game server in four steps when nothing degrades it and the two queues on its way are empty. |
| RelayDelivers.ReturnDelivers | player-gateway-testing-app/internal/proxy/proxy.go:166-177 | A packet from the game server gets to the client of the endpoint in turn in five steps when nothing degrades it and the channels on its way are empty. |
| RelayFaults.StepCrashesIff | player-gateway-testing-app/internal/token/token_manager.go:239-245 | A step of the relay panics exactly when an endpoint checks a packet, no command, not dropped and with nobody's token, that meets a too short base64 token before one it starts with, or when the server-side proxy's index is out of range. |
| RelayFaults.CrashesExactlyWhen | player-gateway-testing-app/internal/proxy/proxy.go:163-187 | A run ends in a panic exactly when one of its steps was such a fault. |
| RelayFaults.SourcesAreHistory | player-gateway-testing-app/internal/proxy/server_side_traffic_handler.go:48-108 | In every run the source table is that of the packets heard and the replies made so far, so that what is proved of those holds in the relay. |
| RelayFaults.RotationFaultIff | player-gateway-testing-app/internal/proxy/server_side_traffic_handler.go:83-106 | After every run of the relay, its next forwarding step indexes out of range exactly when its player is not blocked, had an earlier reply forwarded, and by now has no more endpoints taking turns than the index left by it. |
| RelayFaults.NeverCrashes | player-gateway-testing-app/internal/proxy/proxy.go:163-259 | No run panics that starts without short tokens, in which no client asks for one, and in which the number of endpoints taking turns never shrinks between replies. |
| RelayFaults.ShortTokenCrashes | player-gateway-testing-app/internal/proxy/client_side_traffic_handler.go:179-191 | A run from every start with a player 1: a client's command installs the one-byte token "A", and any 28 bytes that are nobody's token then make the endpoint panic. |
| RelayFaults.NoEmptyTokenEver | player-gateway-testing-app/internal/token/token_manager.go:81-84 | In no run does a player get the empty token, if none has it at first. |
| Publish.StepKeeps | multi-build-solution/s3-sync-sidecar/sync.sh:88-203 | Whatever is shipped: every step of uploaders and sidecar keeps that what is here of a version uploaded once is in the bucket and that marked ones have their upload marker, and removes neither its files nor its mark. |
| Publish.BucketStepGrows | multi-build-solution/manage-builds.sh:298-311 | Every bucket step keeps that finished and covered versions have their upload marker, and removes no protected object and no history. |
| Publish.AnnouncementCoversIt | multi-build-solution/manage-builds.sh:298-311 | The update marker that an uploader writes covers the version it has uploaded. |
| PublishFiles.StepKeepsFile | multi-build-solution/manage-builds.sh:298-304 | Files before upload marker: every step keeps that the marker is in the bucket, on its way, or marked upon only where the file is too, for a file whose name comes after the marker's and for one that no reading has missed. |
| PublishFiles.CompleteFile | multi-build-solution/s3-sync-sidecar/sync.sh:174-194 | Over all interleavings with failed and partial syncs and restarts, with listings read key by key while uploads go on, and whatever else is shipped: when a version uploaded once is marked, each of its files that comes after the marker is on the volume, and remains so. |
| PublishFiles.CompleteBuild | multi-build-solution/s3-sync-sidecar/sync.sh:174-194 | So a marked version all of whose files come after the marker is whole, and remains so. |
| PublishFiles.WholeWhenOrderly | multi-build-solution/s3-sync-sidecar/sync.sh:125-134 | So is, whatever its files are called, a marked version that does not ship the marker's name, in a run in which none of its files is uploaded behind the place that a reading has come to. |
| PublishFiles.MarkedHolds | multi-build-solution/s3-sync-sidecar/sync.sh:174-194 | What every mark is good for: the whole version under the conditions of the two previous rows, and without them each of its files as in CompleteFile. |
| Publish.PruneLeavesListed | multi-build-solution/s3-sync-sidecar/sync.sh:104-117 | After a listing and the removals it leads to, one directory at a time and in any order, exactly the listed directories remain, and the pass counts as a change exactly when one was removed. |
| Publish.SyncMirrors | multi-build-solution/s3-sync-sidecar/sync.sh:125-134 | However its copies and deletions are ordered, also while the listings are still read, a sync that succeeds on a bucket that stays as it is leaves the volume a mirror of it, up to the excluded names. |
| Publish.ExcludedIff | multi-build-solution/s3-sync-sidecar/sync.sh:125-130 | Said of whole paths: a sync leaves alone two files at the top and every file below it that bears the download marker's name. |
| Publish.ReadOn | multi-build-solution/s3-sync-sidecar/sync.sh:125-134 | From every point the reading of the listings can go on to its end, and on a bucket that stays as it is it finds exactly what differs from there on. |
| Publish.EmptyBucketChangesNothing | multi-build-solution/s3-sync-sidecar/sync.sh:94-103 | While the bucket is empty the sidecar, from between two syncs on, neither copies nor removes anything, however often it polls, lists or restarts. |
| Publish.MarkingMarksExactly | multi-build-solution/s3-sync-sidecar/sync.sh:176-194 | A marking pass, in any order of directories, leaves marked exactly the directories that hold the upload marker. |
| PublishDirectories.DirectoryThereIff | multi-build-solution/s3-sync-sidecar/sync.sh:104-128 | After every run a build's directory is on the volume exactly when a file was copied into it since a pass last removed it; a sync that deletes files and a mark that is taken back leave it. |
| PublishNames.FileExactlyWhen | multi-build-solution/manage-builds.sh:298-304 | A file is on the volume in every run that marks its version exactly when the upload marker's name comes before it and its build does not ship that name. |
| PublishNames.WholeExactlyWhenPlain | multi-build-solution/manage-builds.sh:298-304 | A version is whole in every run that marks it exactly when the upload marker's name comes before those of all its files that a sync copies. |
| PublishNames.FileIsMissed | multi-build-solution/manage-builds.sh:298-304 | For every build with a file named before the marker, a run that uploads it whole and ends with it marked and the file absent. |
| PublishNames.DotEnvIsMissed | multi-build-solution/manage-builds.sh:298-304 | In particular for ".env". |
| PublishNames.ShippedMarkerIsOverwritten | multi-build-solution/manage-builds.sh:303-304 | For every build that ships the marker's name, a run after which what the marked version holds under it is not what the uploader put over it. |
| PublishNames.EarlyMarkerMarksPart | multi-build-solution/s3-sync-sidecar/sync.sh:176-188 | A concrete run that marks a version of which only the shipped marker was copied. |
| PublishNames.ShippedDownloadMarkerIsSkipped | multi-build-solution/s3-sync-sidecar/sync.sh:125-128 | When a marked version is whole by the rules above, its files on the volume are exactly those that do not bear the download marker's name. |
| PublishUpdates.PromiseAlways | multi-build-solution/s3-sync-sidecar/sync.sh:60-237 | Every run keeps, whatever is shipped: what the last acted-on marker covered is on its way, then here, then marked. |
| PublishUpdates.CompleteExactlyWhenMarked | multi-build-solution/s3-sync-sidecar/sync.sh:174-194 | In every run a version uploaded once, whatever it ships, is marked exactly when some marking pass reached its directory with the upload marker there; it is lost exactly when none did. |
| PublishUpdates.ArrivesExactlyWhen | multi-build-solution/s3-sync-sidecar/sync.sh:206-237 | From any moment between two syncs at which its upload marker is in the bucket, and without a restart, a version, whatever it ships, is marked, whenever the sidecar is idle, exactly when it was already or some sync since has succeeded with a change. |
| PublishUpdates.OwedArrivesExactlyWhen | multi-build-solution/s3-sync-sidecar/sync.sh:60-85 | In particular for a version covered by the marker that a poll acts on. |
| PublishUpdates.SyncMarksExactlyWhen | multi-build-solution/s3-sync-sidecar/sync.sh:88-148 | After one sync, a version whose upload marker was in the bucket when it started is marked exactly when it was before, or neither listing nor sync failed and some directory was removed or some file copied or deleted. |
| PublishUpdates.SyncMarksIff | multi-build-solution/s3-sync-sidecar/sync.sh:134-148 | A sync goes on to a marking pass exactly when it does not fail and removed a directory, copied a file or deleted one. |
| PublishUpdates.NoLostUpdate | multi-build-solution/s3-sync-sidecar/sync.sh:60-85 | Whenever the sidecar is idle having last acted on an ETag, every version whose upload had finished when that marker was written is marked, and the mark holds as in PublishFiles.MarkedHolds, if no ETag was reused and no failure is unrepaired. |
| PublishUpdates.UploadsArrive | multi-build-solution/s3-sync-sidecar/sync.sh:206-237 | The same with no condition but on the events: all syncs succeed, nothing restarts, marker values are new. |
| PublishUpdates.SuccessSettles | multi-build-solution/s3-sync-sidecar/sync.sh:206-237 | When all syncs succeed, nothing restarts and marker values are new, those conditions hold. |
| PublishLosses.StrandedStays | multi-build-solution/s3-sync-sidecar/sync.sh:76-84 | A build unmarked while the stored ETag is current stays unmarked until a marker write or a restart. |
| PublishLosses.FailureStrands | multi-build-solution/s3-sync-sidecar/sync.sh:78-103 | A listing or sync that fails once the ETag is stored strands every build it has not marked. |
| PublishLosses.SameSecondStrands | multi-build-solution/manage-builds.sh:309-310 | An upload that writes the marker text that the sidecar acted on last is never noticed. |
| PublishLosses.RestartStrands | multi-build-solution/s3-sync-sidecar/sync.sh:134-143 | After a restart between copying and marking, the first sync, however it reads the listings, changes nothing, skips the marking, and the build stays unmarked although whole. |
| PublishLosses.FailureLosesUpdate | multi-build-solution/s3-sync-sidecar/sync.sh:222-236 | A concrete run with distinct markers that ends idle, up to date and with an announced build unmarked. |
| PublishLosses.RestartLosesUpdate | multi-build-solution/s3-sync-sidecar/sync.sh:205-210 | A concrete run that reaches the situation of RestartStrands. |
| PublishLosses.SameSecondLosesUpdate | multi-build-solution/manage-builds.sh:309-310 | A concrete run without failure or restart that ends idle, up to date and with an announced build unmarked, since its marker has the text of the one before. |
| Launch.ActivatedOnWholeBuild | multi-build-solution/SdkGoWrapper/server.go:35-91 | Over every run of all four processes: each entry of the log was added by a step that fits it, and is for the version that a session asked for, which is its BuildVersion property or else "default"; the session is activated only right after the server of its own version was launched and seen alive, and whatever was launched from a version uploaded once is marked, and the mark holds: a whole build if it is plain or nothing was added behind a reading, and in any case its files that come after the marker. |
| Launch.SessionVersionIs | multi-build-solution/SdkGoWrapper/server.go:35-57 | At any time in any run, the version that the SDK wrapper waits for or has activated is the one that the session of the running container asked for, and so is the one that the wrapper script works on, whose version file was then written. |
| Launch.WorldInvKept | multi-build-solution/wrapper.sh:17-138 | Every step of the wrapper, the SDK wrapper and the sync protocol keeps the joint invariant, whatever is shipped. |
| Launch.WholeBuildIsActivated | multi-build-solution/wrapper.sh:49-125 | A build that is there, marked and executable, and stays so, is launched, seen alive and activated, whatever uploaders and sidecar do in between: the log is exactly what seven steps of the wrapper and a later one of the ticker add. |
| Launch.MarkedBuildIsActivated | multi-build-solution/wrapper.sh:49-125 | For a build uploaded once and marked when the wrapper begins, it does stay there, whatever else it ships, so that every such run activates it; if it ships the marker's own name, the binary must be there when the wrapper begins. |
| Launch.MissingBinary | multi-build-solution/wrapper.sh:49-69 | While the binary is missing, whatever the other processes do, the wrapper waits fifteen times two seconds, looks once more and gives up, and nothing is launched or activated. |
| Launch.MissingMarker | multi-build-solution/wrapper.sh:76-90 | Likewise while the download marker is missing, however whole the build is. |
| Launch.LaunchEnds | multi-build-solution/wrapper.sh:40-125 | Once a version is read, 37 steps of the wrapper are enough for it to serve or to end, whatever the others do in between. |
| Launch.DoomedEnds | multi-build-solution/wrapper.sh:92-138 | When the server has died, the binary is never executable, or the SDK wrapper ended before there was a version, the wrapper's next step ends it whenever that comes, takes its signal back, and nothing is launched any more. |
| Launch.DeathEnds | multi-build-solution/wrapper.sh:104-138 | In particular after the server died while the wrapper waited for it to settle or served. |
| Launch.RefusedIsLast | multi-build-solution/SdkGoWrapper/server.go:75-82 | An activation that GameLift refuses is the last before the container starts again. |
| Launch.VersionIsTakenUp | multi-build-solution/wrapper.sh:31-42 | Once the version file is written the wrapper's next step takes that version up, also when the SDK wrapper has ended in the meantime. |
| Launch.DeadServerIsActivated | multi-build-solution/wrapper.sh:104-119 | A run in which the server dies right after it was seen alive and the session is activated all the same. |
| Launch.NothingAfterExit | multi-build-solution/SdkGoWrapper/server.go:65-71 | After the SDK wrapper's exit nothing is activated before the container starts again. |
| Handshake.PtyWriter.Write | fast-build-update-tool/internal/tools/ssh_enabler.go:180-191 | What one write sends on and closes, and the new count. |
| Handshake.HandshakeSafe | fast-build-update-tool/internal/tools/ssh_enabler.go:112-191 | Over all interleavings, commands are typed in order, each at most once, the i-th after at least i prompts; nothing is sent after the close, there is at most one close, and no receive returns the zero value of the closed channel. |
| Handshake.StepKeepsInv | fast-build-update-tool/internal/tools/ssh_enabler.go:128-191 | Every step of either goroutine keeps the handshake invariant. |
| Handshake.TypedWithoutOutputIff | fast-build-update-tool/internal/tools/ssh_enabler.go:112-191 | At any time in any session that has not failed, n commands can be typed without further output exactly when n prompts were written so far and there are n commands. |
| Handshake.NextTypedWithoutOutputIff | fast-build-update-tool/internal/tools/ssh_enabler.go:130-145 | So the typist goes on without output exactly when there were more prompts than commands before. |
| Handshake.PromptsAreBanked | fast-build-update-tool/internal/tools/ssh_enabler.go:180-184 | A run in which two early prompts let two commands through with no output in between. |

## Left out

- RelayForward.RelayIsolation: the token is current when the endpoint receives the datagram; the client may have sent it before the token was installed.
- RelayReturn.ReturnIsolation: the first client of an endpoint keeps receiving its answers after the player's token is replaced, as in the program.
- RelayForward.DistinctOrigins: assumes that the network does not duplicate datagrams and that only the endpoints' sockets write to the server-side proxy.
- The return path: only the server-side proxy writes to the endpoints' return sockets.
- The clock stands still during one step of the relay; the classes read it as often as the program does, and `Sources.OneReadingWillDo` says when that makes no difference.
- RelayDelivers.ForwardDelivers: is about empty queues; with other packets ahead, order and completeness are what `Stages.AcceptKeeps` says.
- ToolMessages.GetDetailsArrivesIff: white space is ASCII; Go's TrimSpace also trims Unicode spaces.
- RelayFaults.NeverCrashes: its conditions are sufficient; `CrashesExactlyWhen` and `RotationFaultIff` are exact.
- PublishFiles.CompleteFile: a sync replaces a local file in one step; version names hold no slash; versions that are overwritten or deleted are excluded, as the upload script itself warns.
- Publish.PruneLeavesListed: directory names are compared as they are; the script takes the local name for a pattern, in which a dot matches any character.
- PublishNames.FileIsMissed: each key of a listing is read at its own moment, in the order of the keys; how many of them S3 puts on one page is not part of this model.
- PublishUpdates.NoLostUpdate: its conditions on failures and ETags are sufficient and shown to be needed by runs; the exact condition is that of `PublishUpdates.ArrivesExactlyWhen`.
- PublishUpdates.ArrivesExactlyWhen: is about stretches without a restart; across restarts `PublishUpdates.CompleteExactlyWhenMarked` is the exact statement.
- Launch.ActivatedOnWholeBuild: the version file is written in one step; the server was seen alive two seconds after its launch and may have died since.
- Handshake.TypedWithoutOutputIff: says what can happen next; that the goroutines are scheduled and typing succeeds is not part of this model.
- Handshake.HandshakeSafe: progress of the session, the recognition of prompts and the key channel are foreign behaviour; a blocked or failed operation is a step that does not happen.
- The endless loops of the proxies, the socket goroutines and the scripts are modelled one iteration at a time; one game server container stands for all of them, since containers only read the volume.
- Sockets, deadlines, address parsing, failing writes, the failed-packet report and the JSON replies: addresses are opaque values and reads and writes are steps.
- Randomness: the bytes of generated tokens and the degradation draw are arbitrary parameters.
- Closing during a run: the relay's runs go up to the shutdown; what `Close` does is proved about the classes.
- `rm -rf` of one directory is one step; a removal that is interrupted half-way can only concern versions that are not uploaded once.
- The mutexes: every operation of the token manager and of the collector is one step.
- The shell scripts and the goroutines are step functions of one state machine rather than loops, because what is proved is about their interleavings; timeouts of the SDK wrapper are an exit at any time.
- File permissions: whether the binary is executable is an arbitrary answer at the wrapper's check.
- `upload-build.sh`, the PowerShell scripts, the console renderer, the command-line wiring, the rest of the fast build update tool and the other samples of the repository.
