# minebot / minebridge — a verified Dafny model

This project models the core logic of two programs. The first is **minebot**, a Discord bot written in Python. The second is **minebridge**, a Minecraft server plugin written in Java. They talk to each other over a WebSocket.

The model covers these parts of minebot:

- **Expiring containers** (`TimedSet`, `TimedDict`, module `Timed`, with the binary min-heap in `ExpiryHeap`). They are classes whose heap of `(expiry, seq, key)` entries is a `seq` field with array-style index arithmetic.
  - The clock is an explicit `now` parameter.
  - The background worker becomes an explicit `Sweep(now)`.
  - Every method keeps an invariant that ties the timestamp map to the heap: every stored key has a heap entry due no earlier than its deadline.
- **Process-wide state** (`GlobalState`): the punishment task registry keyed by `(user_id, punishment_type)`, the server-name list, the per-command sync flags and the three player projections.
- **The bot side of the bridge protocol** (`Bridge`, `WireSchemas`, `MessageTypes`): the connection state machine over abstract frames, with its IP gate, authentication gate, deadline, dispatch and teardown, and close code 1008 ("policy violation", section 7.4.1 of RFC 6455). The frame loop runs the authenticate handler and the two reply handlers, which fill the player projections from the frame's payload. Around it sit the action table, the send primitive and the message validators.
- **Temporary punishments** (`Scheduling`, `Recovery`, `CommandEvents`, `ModerationEvents`, `TempActions`):
  - startup recovery;
  - splitting timeouts across Discord's 2,419,200-second ceiling per edit;
  - the audit-log listeners with their 120-second de-duplication;
  - the persistence store's upsert and delete.
  - Datetimes are integer seconds. Discord and database calls are effects appended to a trace, with an outcome parameter.
- **Smaller logic**:
  - duration parsing and formatting (`TimeUnits`);
  - dotted-path settings and localisation lookup (`SettingsLookup`);
  - config validators (`ConfigSchemas`);
  - the command helper (`CommandHelpers`);
  - reward mapping and the player lookups (`MinecraftHelpers`);
  - user upsert and the inventory append (`Users`);
  - wiki locale fallback (`Wiki`).

The model covers these parts of minebridge:

- **Command text** (`CommandParser`): the quote/escape tokenizer, syntax-spec parsing, named-parameter mapping, validation, and compiling back to command text. The compiler uses corrected quoting that also escapes backslashes (see Findings); for it, the round trip from compiled text through the tokenizer is proved. The quoting as written loses backslashes, and that is shown by a counterexample.
- **The action handler** (`CommandHandler`): the case-insensitive message-type lookup and the reflective dispatch table, modelled as a map.
- **The reconnecting client** (`PluginSocket`): the back-off arithmetic and the connection life cycle.
- **Plugin settings** (`BridgeSettings`): their validation.

`Common` holds the shared vocabulary: `Option`/`Result`, ASCII case mapping, split, join and replace.

## Model

| member | source | states |
|---|---|---|
| Bridge.ActionRegistry.Register | minebot/src/websocket/action_registry.py:31-46 | the decorator returns the handler unchanged; with loading on it stores (or replaces) the entry, and it warns of an override exactly when the name was already registered |
| Bridge.Inject | minebot/src/websocket/listener.py:97-110 | a handler is refused exactly when it names the bot or the client before that is set (the getter raises); otherwise it is given exactly those of websocket, data, bot and client that it names |
| Bridge.StepUnavailableSkips | minebot/src/websocket/listener.py:103-132 | a frame whose handler names an unset bot or client runs no handler: it is logged as failed and the connection is otherwise unchanged |
| Bridge.AuthEffect | minebot/src/websocket/actions/response/authenticate.py:20-32 | a wrong password closes the connection with 1008 and changes nothing else; a right one stores the client and appends its server list followed by "all" |
| Bridge.ClosedAbsorbs | minebot/src/websocket/listener.py:60-65 | once the frame loop has stopped, further frames change nothing |
| Bridge.SessionIpRejected | minebot/src/websocket/listener.py:36-44 | a peer other than the configured allowed IP is closed with 1008 before any frame, with no teardown |
| Bridge.SessionDuplicateRejected | minebot/src/websocket/listener.py:46-50 | an id already in the client table is closed with 1008 at once, with no teardown |
| Bridge.RunFramesKeepsOthers | minebot/src/websocket/listener.py:60-133 | the frame loop adds or replaces only the connection's own table entry; every other entry is kept |
| Bridge.RunFramesAuthInTable | minebot/src/websocket/listener.py:114-117 | authentication is complete only while the connection is in the client table |
| Bridge.SessionTeardown | minebot/src/websocket/listener.py:136-145 | after an accepted session ends, its entry is gone, every other entry is as before, the server list is empty and teardown is the last event |
| Bridge.StepDeadline | minebot/src/websocket/listener.py:62-65 | a frame arriving after the 3-second deadline without authentication closes the connection and does nothing else |
| Bridge.StepUnauthenticated | minebot/src/websocket/listener.py:75-80 | before authentication no handler runs for any action other than "authenticate", and the table, server list and player projections are unchanged |
| Bridge.StatusReplyEffect | minebot/src/websocket/actions/response/player_status_check.py:19-22 | a reply that says online and names both username and uuid adds both to the online players with the current stamp and maps the username to the uuid; every other entry is kept, the server projection is untouched, and any other reply changes nothing |
| Bridge.ServerReplyEffect | minebot/src/websocket/actions/response/player_server_check.py:19-25 | a reply naming a server records it, with the current stamp, under the username and under the uuid, each when given; no other entry is added or changed, the other projections are untouched, and a reply without a server changes nothing |
| Bridge.StepStatusReply | minebot/src/websocket/listener.py:83-112 | an authenticated frame routed to the status reply handler, validated and run without raising, applies the reply to the projections and leaves the table, server list and flags as they were |
| Bridge.StepServerReply | minebot/src/websocket/listener.py:83-112 | the same for the server reply handler |
| Bridge.StepProjectionsGrow | minebot/src/websocket/listener.py:60-133 | one turn of the loop never removes a player from any projection |
| Bridge.RunFramesProjectionsGrow | minebot/src/websocket/listener.py:60-133 | the frame loop never removes a player from any projection |
| Bridge.Hub.HandleFrame | minebot/src/websocket/listener.py:60-133 | one turn of the loop changes the table, the server list, the player projections, the flags and the trace as the step function says, calling the authenticate or reply handler the action is routed to |
| Bridge.StepAuthCompletes | minebot/src/websocket/listener.py:114-117 | authentication completes only on an in-time "authenticate" frame whose password matches, and the connection is then in the table |
| Bridge.StepContinues | minebot/src/websocket/listener.py:118-132 | an undecodable frame, a payload that fails validation, an unknown action or a raising handler leaves the loop running |
| Bridge.Hub.Authenticate | minebot/src/websocket/actions/response/authenticate.py:18-32 | closes exactly on a password mismatch; otherwise the client is stored and the server list extended by its servers and "all"; the player caches are untouched |
| Bridge.Hub.HandleConnection | minebot/src/websocket/listener.py:23-148 | the client table, server list, player projections and event trace after a connection are those of the session function, whose loop applies the reply handlers |
| Bridge.PlayerStatusCheckReply | minebot/src/websocket/actions/response/player_status_check.py:13-22 | only an online reply naming both username and uuid marks both online and maps the username to the uuid; otherwise nothing changes |
| Bridge.PlayerServerCheckReply | minebot/src/websocket/actions/response/player_server_check.py:13-25 | a reply naming a server records it under the username and under the uuid, each when given; the other caches are untouched |
| Bridge.SendMessage | minebot/src/websocket/manager.py:27-51 | with no client nothing is sent; otherwise the first client is the target, a model is encoded with model_dump_json and a dict with json.dumps, and the result is true only when delivered |
| BridgeSettings.WebSocketError | minebridge/minebridge-core/src/main/java/org/mineacademy/minebridge/core/settings/Settings.java:44-54 | the settings are accepted exactly when the host is non-empty, the port is present and in 1..65535 and the password non-empty; otherwise the first failing check's message, the port message naming the port in decimal |
| BridgeSettings.WebSocket.Init | minebridge/minebridge-core/src/main/java/org/mineacademy/minebridge/core/settings/Settings.java:37-55 | the three values are stored as read even when a check then fails, and the error is the checks' verdict |
| BridgeSettings.AliasesTable | minebridge/minebridge-core/src/main/java/org/mineacademy/minebridge/core/settings/Settings.java:65-76 | every command has an entry: its configured aliases, or none when it has no entry |
| BridgeSettings.LoadAliases | minebridge/minebridge-core/src/main/java/org/mineacademy/minebridge/core/settings/Settings.java:65-76 | the alias loop builds exactly the alias table |
| BridgeSettings.FirstMissing | minebridge/minebridge-core/src/main/java/org/mineacademy/minebridge/core/settings/Settings.java:95-99 | finds the first command in iteration order whose syntax is missing or empty, and every command before it has one |
| BridgeSettings.SyntaxTable | minebridge/minebridge-core/src/main/java/org/mineacademy/minebridge/core/settings/Settings.java:90-104 | loading succeeds exactly when every command has a non-empty syntax string, giving each its string; otherwise the error names the first command without one |
| BridgeSettings.LoadSyntax | minebridge/minebridge-core/src/main/java/org/mineacademy/minebridge/core/settings/Settings.java:90-104 | the syntax loop gives exactly the syntax table, stopping at the first missing syntax |
| BridgeSettings.SyntaxCoversCommands | minebridge/minebridge-core/src/main/java/org/mineacademy/minebridge/core/settings/Settings.java:90-104 | over the six moderation commands, loading succeeds exactly when all six have a syntax, and then the table covers exactly those six |
| CommandEvents.FetchDiscordUser | minebot/src/websocket/actions/event/command_executed.py:380-389 | a user is found exactly when the name is non-empty, linked to a Discord id, and that id resolves; it is the linked id |
| CommandEvents.DurationOfOnePair | minebot/src/helper/time.py:216-232 | a duration written as digits followed directly by a unit name is the number times that unit's seconds, in any letter case; an unknown unit gives zero |
| CommandEvents.FirstBanMatch | minebot/src/websocket/actions/event/command_executed.py:315-317 | picks the first ban whose username equals the target's ignoring case; none exactly when no ban matches |
| CommandEvents.SimpleAction | minebot/src/websocket/actions/event/command_executed.py:206-244 | a kick, ban or untimeout of a non-member does nothing; of a member it logs the punishment with the executor and the reason, then makes the one Discord call (a kick or ban carrying that reason) |
| CommandEvents.Tempban | minebot/src/websocket/actions/event/command_executed.py:247-302 | a temporary ban of a non-member does nothing; otherwise the world stays well-formed |
| CommandEvents.UnbanByName | minebot/src/websocket/actions/event/command_executed.py:305-337 | with no ban list or an empty one, or no matching name, nothing happens; otherwise the first matching banned user is logged with the executor and the reason, and unbanned |
| CommandEvents.ApplyTimeout | minebot/src/websocket/actions/event/command_executed.py:176-203 | the timeout path keeps the world well-formed |
| CommandEvents.ShortTimeoutSingleEdit | minebot/src/websocket/actions/event/command_executed.py:188-203 | a timeout within the 28-day ceiling is one log entry and one edit to its exact end; nothing is stored or scheduled |
| CommandEvents.ExtendedTimeoutArmed | minebot/src/websocket/actions/event/command_executed.py:148-173 | a longer timeout stores a record with its real end and first refresh time, edits the member to the ceiling, and registers a refresh timer due after the ceiling under the member's timeout key |
| CommandEvents.ExtendedTimeoutCoversDuration | minebot/src/websocket/actions/event/command_executed.py:72-173 | the extended path and the refresh chain it arms edit the member to every chain end in turn; each step is at most the ceiling and the last end is the full duration |
| CommandEvents.TempbanThenExpiry | minebot/src/websocket/actions/event/command_executed.py:247-302 | a temporary ban arms a one-shot timer of the ban's duration under the ban key; when it fires the record is deleted, the task forgotten and the member unbanned |
| CommandEvents.SyncName | minebot/src/websocket/actions/event/command_executed.py:406-408 | a temporary ban is gated by the ban command's flag; every other command by its own |
| CommandEvents.Arg | minebot/src/websocket/actions/event/command_executed.py:413-416 | reads an argument, treating a missing argument map as empty |
| CommandEvents.HandleCommandExecuted | minebot/src/websocket/actions/event/command_executed.py:403-458 | nothing happens when the sync flag is off, the executor or target cannot be resolved, the target is missing, the command has no handler, or a temporary ban or timeout lacks a duration; only temporary bans and timeouts touch the store and the task registry; once every gate passes, each command type runs its handler with the resolved executor, target and reason and the parsed duration (a timeout only for a guild member), and a command without a handler does nothing |
| CommandEvents.CommandReason | minebot/src/websocket/actions/event/command_executed.py:417 | the reason handed to every handler is the typed reason when present and non-empty, else the no-reason text |
| CommandEvents.KickCarriesReason | minebot/src/websocket/actions/event/command_executed.py:206-228 | a synced kick by a linked player against a linked guild member logs exactly one kick entry under the executor with the reason, then kicks with the same reason |
| CommandEvents.TempbanFollowsBanFlag | minebot/src/websocket/actions/event/command_executed.py:406-410 | a temporary ban is refused whenever bans are not synced to Discord |
| CommandHandler.ValidateParameters | minebridge/minebridge-core/src/main/java/org/mineacademy/minebridge/core/internal/CommandHandler.java:125-133 | true exactly when every required parameter is present with a non-empty value |
| CommandHandler.ArgMap | minebridge/minebridge-core/src/main/java/org/mineacademy/minebridge/core/internal/CommandHandler.java:138-158 | the argument map holds target, duration and reason exactly when each is present and non-empty, with that value, and nothing else |
| CommandHandler.ExtractParameters | minebridge/minebridge-core/src/main/java/org/mineacademy/minebridge/core/internal/CommandHandler.java:138-158 | the three guarded puts build the argument map of the target, the duration and the combined reason |
| CommandHandler.Process | minebridge/minebridge-core/src/main/java/org/mineacademy/minebridge/core/internal/CommandHandler.java:94-120 | a message is sent exactly when the text parses, its lower-cased type has a spec and all of that spec's parameters are given; it carries the executor, the lower-cased type and the extracted arguments |
| CommandHandler.Handler.constructor | minebridge/minebridge-core/src/main/java/org/mineacademy/minebridge/core/internal/CommandHandler.java:59-74 | the handler starts with the six moderation commands and their required parameters |
| CommandHandler.Handler.RegisterCommand | minebridge/minebridge-core/src/main/java/org/mineacademy/minebridge/core/internal/CommandHandler.java:82-84 | the spec table gains or replaces exactly one entry |
| CommandHandler.Handler.ProcessCommand | minebridge/minebridge-core/src/main/java/org/mineacademy/minebridge/core/internal/CommandHandler.java:94-120 | sends the message the specification function gives and returns true exactly when one is sent |
| CommandHandler.SentCarriesRequired | minebridge/minebridge-core/src/main/java/org/mineacademy/minebridge/core/internal/CommandHandler.java:66-74 | with the default table every sent message names a known command and a target, and a temporary ban or timeout also a duration |
| CommandHandler.MissingRequiredNotSent | minebridge/minebridge-core/src/main/java/org/mineacademy/minebridge/core/internal/CommandHandler.java:107-110 | a parsed command missing one of its required parameters is never sent |
| CommandHelpers.ParsePermissions | minebot/src/helper/command.py:88-93 | succeeds exactly when every name is NONE or a known permission; the result lists the flag set of each name in order, NONE as the empty set |
| CommandHelpers.OrAllCovers | minebot/src/helper/command.py:209-212 | every listed permission's flags are in the combined value |
| CommandHelpers.OrAllLeast | minebot/src/helper/command.py:209-212 | the combined value has no flag outside a bound that covers every listed permission |
| CommandHelpers.OrAllOrderFree | minebot/src/helper/command.py:209-212 | the combined value depends only on which permissions are listed, not on their order or repetition |
| CommandHelpers.NoneOverrides | minebot/src/helper/command.py:203-212 | listing NONE makes the value 0 whatever else is listed; without it every listed permission's flags are required |
| CommandHelpers.RewardOf | minebot/src/helper/command.py:114-143 | without a reward section every reward attribute is None; otherwise the mode is kept, a single role becomes a one-element list, and each server's item string becomes a one-element list |
| CommandHelpers.SyncOf | minebot/src/helper/command.py:145-160 | both sync flags are off unless the configuration has a synchronization section, in which case they are its flags |
| CommandHelpers.Configure | minebot/src/helper/command.py:42-81 | a missing entry gives the disabled defaults with the NONE permission; otherwise construction fails exactly when a permission name is unknown, and succeeds with the configured cooldown, log channel, reward and sync flags |
| CommandHelpers.DefaultsNeedNoPermission | minebot/src/helper/command.py:75-81 | a command missing from the configuration is disabled and needs no permission |
| CommandHelpers.GetCooldown | minebot/src/helper/command.py:321-376 | no hook without a cooldown; an error exactly when the bucket is not one of the four or the algorithm is neither fixed nor sliding window; otherwise a hook of that algorithm with the configured window, count and bucket |
| CommandHelpers.ExtraNames | minebot/src/helper/command.py:242-247 | no extra hooks, one, or the given list in order |
| CommandHelpers.GenerateHooks | minebot/src/helper/command.py:222-249 | fails exactly when the cooldown is invalid; otherwise the cooldown hook comes first when configured, followed by the extra hooks in order |
| CommandHelpers.AtMostOneCooldownHook | minebot/src/helper/command.py:238-240 | the only cooldown hook in the list is the configured one, at the front |
| CommandHelpers.CommandHelper.constructor | minebot/src/helper/command.py:42-43 | a new helper has its name and configuration and no cached permission value |
| CommandHelpers.CommandHelper.GetPermissions | minebot/src/helper/command.py:192-220 | the first computed permission value is cached and returned from then on; it is 0 when NONE is listed and the OR of the flags otherwise |
| CommandHelpers.CommandHelper.SynchronizeToMinecraft | minebot/src/helper/command.py:306-319 | nothing is sent and false returned when Discord-to-Minecraft sync is off; otherwise building the command-executed message fails exactly when the server is neither built in nor advertised by an authenticated plugin, and else the message from MineBot is sent and the send's outcome is returned; on the defaults path the flag is unset and reading it fails |
| CommandHelpers.NewCommandHelper | minebot/src/helper/command.py:27-73 | construction fails exactly when the configuration is invalid; the helper's name is the key in lower case; sync state is registered exactly when a sync direction is on, and otherwise the registry is unchanged |
| CommandParser.TokensNonEmpty | minebridge/minebridge-core/src/main/java/org/mineacademy/minebridge/core/utils/CommandParser.java:97-134 | the tokenizer never yields an empty parameter |
| CommandParser.ParseParameters | minebridge/minebridge-core/src/main/java/org/mineacademy/minebridge/core/utils/CommandParser.java:97-134 | the character loop yields exactly the tokens of the specification tokenizer (escape, quote toggle, unquoted space ends a non-empty token, last token kept) |
| CommandParser.RunEscape | minebridge/minebridge-core/src/main/java/org/mineacademy/minebridge/core/utils/CommandParser.java:111-125 | escaping a value's backslashes and quotes makes the tokenizer read the value back literally |
| CommandParser.RunQuote | minebridge/minebridge-core/src/main/java/org/mineacademy/minebridge/core/utils/CommandParser.java:111-125 | a quoted, escaped value is read back as exactly that value, spaces included |
| CommandParser.TokenizeArgs | minebridge/minebridge-core/src/main/java/org/mineacademy/minebridge/core/utils/CommandParser.java:282-295 | with escaping corrected, the tokenizer recovers every non-empty parameter list from its compiled text |
| CommandParser.QuoteAsWrittenAgrees | minebridge/minebridge-core/src/main/java/org/mineacademy/minebridge/core/utils/CommandParser.java:286-292 | for a value without a backslash, the quoting as written equals the corrected quoting |
| CommandParser.ArgsAsWrittenAgrees | minebridge/minebridge-core/src/main/java/org/mineacademy/minebridge/core/utils/CommandParser.java:282-293 | for values without a backslash, the compiled parameter text as written equals the corrected one |
| CommandParser.BackslashLostAsWritten | minebridge/minebridge-core/src/main/java/org/mineacademy/minebridge/core/utils/CommandParser.java:286-292 | as written, the parameter a\b compiles unquoted and is read back as ab; the corrected quoting reads it back intact |
| CommandParser.DropTrailingEmpty | minebridge/minebridge-core/src/main/java/org/mineacademy/minebridge/core/utils/CommandParser.java:331 | splitting drops trailing empty strings and nothing else |
| CommandParser.Classify | minebridge/minebridge-core/src/main/java/org/mineacademy/minebridge/core/utils/CommandParser.java:336-341 | a word is a parameter exactly when it is wrapped in angle or square brackets; angle brackets mean required; the name is what lies between |
| CommandParser.ParseSyntaxWords | minebridge/minebridge-core/src/main/java/org/mineacademy/minebridge/core/utils/CommandParser.java:330-345 | the loop over the words after the command yields the parameters of the specification parser |
| CommandParser.ClassifyAll | minebridge/minebridge-core/src/main/java/org/mineacademy/minebridge/core/utils/CommandParser.java:335-342 | classifying each word in turn keeps exactly the parameters of the specification parser, in order |
| CommandParser.SyntaxRoundTrip | minebridge/minebridge-core/src/main/java/org/mineacademy/minebridge/core/utils/CommandParser.java:330-345 | rendering a command and its parameters as "cmd <req> [opt]" and parsing it back gives the parameters |
| CommandParser.AddAliases | minebridge/minebridge-core/src/main/java/org/mineacademy/minebridge/core/utils/CommandParser.java:29-31 | adding a command's aliases maps each lower-cased alias to that command and keeps other entries |
| CommandParser.AliasTable | minebridge/minebridge-core/src/main/java/org/mineacademy/minebridge/core/utils/CommandParser.java:25-32 | every alias in the table maps to a configured command that lists it |
| CommandParser.AliasTableComplete | minebridge/minebridge-core/src/main/java/org/mineacademy/minebridge/core/utils/CommandParser.java:25-32 | when no alias is shared, every configured alias of a command maps, lower-cased, to that command |
| CommandParser.Build | minebridge/minebridge-core/src/main/java/org/mineacademy/minebridge/core/utils/CommandParser.java:25-38 | building succeeds exactly when every syntax string parses, and caches one parameter list per syntax entry |
| CommandParser.BuildAliasTable | minebridge/minebridge-core/src/main/java/org/mineacademy/minebridge/core/utils/CommandParser.java:27-32 | the nested loop builds the specification alias table |
| CommandParser.Named | minebridge/minebridge-core/src/main/java/org/mineacademy/minebridge/core/utils/CommandParser.java:87-91 | each syntax name up to the count is mapped, lower-cased, and every mapped value is one of those parameters |
| CommandParser.NamedLookup | minebridge/minebridge-core/src/main/java/org/mineacademy/minebridge/core/utils/CommandParser.java:87-91 | with distinct names, the i-th syntax name maps to the i-th parameter |
| CommandParser.MapNamedParameters | minebridge/minebridge-core/src/main/java/org/mineacademy/minebridge/core/utils/CommandParser.java:80-92 | the loop maps the first min(syntax, parameters) names to their parameters |
| CommandParser.IndexOfSpace | minebridge/minebridge-core/src/main/java/org/mineacademy/minebridge/core/utils/CommandParser.java:55 | -1 exactly when there is no space; otherwise the index of the first space |
| CommandParser.ParseCommand | minebridge/minebridge-core/src/main/java/org/mineacademy/minebridge/core/utils/CommandParser.java:47-75 | an absent or empty message gives no command; a parsed command's used alias resolves case-insensitively to its type, has no space, and its parameters are non-empty |
| CommandParser.GetParameterIgnoresCase | minebridge/minebridge-core/src/main/java/org/mineacademy/minebridge/core/utils/CommandParser.java:423-439 | named parameters are looked up ignoring case, and one is present exactly when it has a value |
| CommandParser.SplitAtWord | minebridge/minebridge-core/src/main/java/org/mineacademy/minebridge/core/utils/CommandParser.java:52-67 | the command word ends at the first space and the parameter text starts after it |
| CommandParser.ParseSlashed | minebridge/minebridge-core/src/main/java/org/mineacademy/minebridge/core/utils/CommandParser.java:47-75 | a slash-prefixed message parses to the command its word names, with the word as used alias and the tokenized rest as parameters, or to nothing when the word is no alias |
| CommandParser.CommandWordIgnoresCase | minebridge/minebridge-core/src/main/java/org/mineacademy/minebridge/core/utils/CommandParser.java:57-60 | the command word is matched ignoring case |
| CommandParser.GetCombinedParameter | minebridge/minebridge-core/src/main/java/org/mineacademy/minebridge/core/utils/CommandParser.java:448-464 | nothing when the start is past the end; otherwise the parameters from the start joined by single spaces |
| CommandParser.CombinedSplits | minebridge/minebridge-core/src/main/java/org/mineacademy/minebridge/core/utils/CommandParser.java:448-464 | splitting the combined text at spaces gives back the parameters it joined |
| CommandParser.FirstNamed | minebridge/minebridge-core/src/main/java/org/mineacademy/minebridge/core/utils/CommandParser.java:487-494 | the first syntax position among the mapped ones whose name matches ignoring case, or -1 when none does |
| CommandParser.CombinedNamed | minebridge/minebridge-core/src/main/java/org/mineacademy/minebridge/core/utils/CommandParser.java:475-502 | no value exactly when the named parameter is absent |
| CommandParser.CombinedStartsWithNamed | minebridge/minebridge-core/src/main/java/org/mineacademy/minebridge/core/utils/CommandParser.java:475-502 | the combined value of a named parameter starts with that parameter's own value |
| CommandParser.GetCombinedNamedParameter | minebridge/minebridge-core/src/main/java/org/mineacademy/minebridge/core/utils/CommandParser.java:475-502 | the loop finds the same combined value as the specification function |
| CommandParser.RequiredCountMono | minebridge/minebridge-core/src/main/java/org/mineacademy/minebridge/core/utils/CommandParser.java:155-160 | the count of required parameters grows with the prefix |
| CommandParser.NthRequired | minebridge/minebridge-core/src/main/java/org/mineacademy/minebridge/core/utils/CommandParser.java:165-175 | the k-th required parameter is at a required position with k required ones before it |
| CommandParser.Validate | minebridge/minebridge-core/src/main/java/org/mineacademy/minebridge/core/utils/CommandParser.java:139-179 | success exactly when the command exists, has a syntax and a parsed syntax, and has at least as many parameters as required ones |
| CommandParser.CountRequired | minebridge/minebridge-core/src/main/java/org/mineacademy/minebridge/core/utils/CommandParser.java:155-160 | the loop counts the required parameters |
| CommandParser.ValidateCommandSyntax | minebridge/minebridge-core/src/main/java/org/mineacademy/minebridge/core/utils/CommandParser.java:139-179 | the method, including its search for the first missing parameter, returns the specification verdict |
| CommandParser.PrimaryAlias | minebridge/minebridge-core/src/main/java/org/mineacademy/minebridge/core/utils/CommandParser.java:305-312 | a primary alias is one of the command's configured aliases |
| CommandParser.CompileList | minebridge/minebridge-core/src/main/java/org/mineacademy/minebridge/core/utils/CommandParser.java:251-296 | (corrected quoting, which also escapes backslashes; see Findings) a command is compiled from a list exactly when it has a syntax and an alias and enough parameters are given |
| CommandParser.CompileMap | minebridge/minebridge-core/src/main/java/org/mineacademy/minebridge/core/utils/CommandParser.java:196-241 | (corrected quoting, which also escapes backslashes; see Findings) a command is compiled from a map exactly when it has a syntax and an alias and every required parameter has a value |
| CommandParser.CompileCommandList | minebridge/minebridge-core/src/main/java/org/mineacademy/minebridge/core/utils/CommandParser.java:251-296 | (corrected quoting, which also escapes backslashes; see Findings) the method builds the specification compiled text |
| CommandParser.AppendAll | minebridge/minebridge-core/src/main/java/org/mineacademy/minebridge/core/utils/CommandParser.java:281-293 | (corrected quoting, which also escapes backslashes; see Findings) appending each value after a space, quoted, gives the prefix followed by the compiled argument text |
| CommandParser.CompileCommandMap | minebridge/minebridge-core/src/main/java/org/mineacademy/minebridge/core/utils/CommandParser.java:196-241 | (corrected quoting, which also escapes backslashes; see Findings) the method builds the specification compiled text |
| CommandParser.AppendPresent | minebridge/minebridge-core/src/main/java/org/mineacademy/minebridge/core/utils/CommandParser.java:213-240 | (corrected quoting, which also escapes backslashes; see Findings) appending in syntax order gives the present values, quoted, or nothing when a required one is missing |
| CommandParser.PrimaryAliasResolves | minebridge/minebridge-core/src/main/java/org/mineacademy/minebridge/core/utils/CommandParser.java:25-32 | the primary alias of a command resolves back to it |
| CommandParser.CompileListRoundTrip | minebridge/minebridge-core/src/main/java/org/mineacademy/minebridge/core/utils/CommandParser.java:251-296 | (corrected quoting, which also escapes backslashes; see Findings) parsing a compiled list command gives back the command type, the alias and exactly the parameters, and it validates |
| CommandParser.PresentAll | minebridge/minebridge-core/src/main/java/org/mineacademy/minebridge/core/utils/CommandParser.java:213-240 | when every parameter has a value, the present values are all of them in syntax order |
| CommandParser.CompileMapRoundTrip | minebridge/minebridge-core/src/main/java/org/mineacademy/minebridge/core/utils/CommandParser.java:196-241 | (corrected quoting, which also escapes backslashes; see Findings) parsing a command compiled from a map that names every parameter gives back the command type, it validates, and each named parameter reads back its value |
| CommandParser.Tokenize | minebridge/minebridge-core/src/main/java/org/mineacademy/minebridge/core/utils/CommandParser.java:97-100 | an empty parameter string has no parameters; the tokens are the run of the character loop, flushed |
| CommandParser.Escape | minebridge/minebridge-core/src/main/java/org/mineacademy/minebridge/core/utils/CommandParser.java:111-115 | backslash-escaping never shortens a value and leaves one without backslash or quote unchanged |
| CommandParser.Quote | minebridge/minebridge-core/src/main/java/org/mineacademy/minebridge/core/utils/CommandParser.java:282-293 | the corrected quoting never shortens a value; that the tokenizer reads it back unchanged is TokenizeArgs |
| CommandParser.ReplaceQuoteIsEscape | minebridge/minebridge-core/src/main/java/org/mineacademy/minebridge/core/utils/CommandParser.java:288 | on a value without backslashes, replacing each quote by an escaped quote is exactly the full escaping |
| CommandParser.ClassifyBracket | minebridge/minebridge-core/src/main/java/org/mineacademy/minebridge/core/utils/CommandParser.java:336-341 | a parameter written in its brackets is classified back as itself |
| CommandParser.ParamsOfBrackets | minebridge/minebridge-core/src/main/java/org/mineacademy/minebridge/core/utils/CommandParser.java:335-342 | the parameters read from written brackets are the ones written, in order |
| ConfigSchemas.FieldsOf | minebot/src/model/schemas.py:52-63 | no fields stay absent; the before-validator wraps only an already built field into a one-element list, so a single field written as a JSON object is refused as not a list; a list is kept |
| ConfigSchemas.ValidateEmbed | minebot/src/model/schemas.py:29-69 | an embed is accepted exactly when the title fits 256 and the description 4096 characters, the fields are a list (or a built field), every field's name fits 256 and value 1024, a footer's text fits 2048 and an author's name 256, and a title or description is non-empty; it keeps them with the fields as a list |
| ConfigSchemas.LongFooterOrAuthorRefused | minebot/src/model/schemas.py:35-43 | a footer text over 2048 or an author name over 256 characters refuses the embed |
| ConfigSchemas.FieldObjectRefused | minebot/src/model/schemas.py:52-63 | an embed whose `fields` is a single JSON object is refused, whatever its title and description |
| ConfigSchemas.FieldInstanceIsList | minebot/src/model/schemas.py:58-63 | a single built field validates exactly as a one-element field list |
| ConfigSchemas.ValidateContent | minebot/src/model/schemas.py:25-26 | text content is accepted exactly when it is 1 to 2000 characters; embed content exactly when the embed validates |
| ConfigSchemas.ValidateMessage | minebot/src/model/schemas.py:72-91 | a message is accepted exactly when its type is plain or embed ignoring case, its content validates, and the content is text exactly for plain messages; the type is stored in lower case |
| ConfigSchemas.MessageRevalidates | minebot/src/model/schemas.py:76-91 | validating the stored message again gives the same message |
| ConfigSchemas.MessageTypeCaseFree | minebot/src/model/schemas.py:76-80 | the message type's case does not change the outcome |
| ConfigSchemas.ValidateButton | minebot/src/model/schemas.py:102-111 | a button is accepted exactly when the `label` key is present (its value may be null), the label fits 80 characters, its emoji is at most one character, and one of the two is non-empty |
| ConfigSchemas.UnlabelledButtonHasEmoji | minebot/src/model/schemas.py:107-111 | an accepted button without a label has a one-character emoji |
| ConfigSchemas.RolesOf | minebot/src/model/schemas.py:160-163 | a single role id becomes a one-element list |
| ConfigSchemas.ValidateReward | minebot/src/model/schemas.py:150-178 | a reward is accepted exactly when its mode is ROLE, ITEM or BOTH ignoring case, its roles are positive, its items are a table, and the mode's sections are non-empty; the mode is stored upper-cased |
| ConfigSchemas.OneRoleIsList | minebot/src/model/schemas.py:160-163 | a single role validates exactly as a one-element role list |
| ConfigSchemas.RewardCarriesItsMode | minebot/src/model/schemas.py:170-178 | an accepted reward that is not item-only has roles, and one that is not role-only has items |
| ConfigSchemas.TrimStartEmpty | minebot/src/model/schemas.py:192-197 | stripping leading whitespace leaves nothing exactly when the text is all whitespace |
| ConfigSchemas.TrimEndEmpty | minebot/src/model/schemas.py:192-197 | stripping trailing whitespace leaves nothing exactly when the text is all whitespace |
| ConfigSchemas.StripEmptyIffBlank | minebot/src/model/schemas.py:192-197 | stripping leaves nothing exactly when the text is all whitespace |
| ConfigSchemas.ValidateCredentials | minebot/src/model/schemas.py:188-197 | credentials are accepted exactly when the token is not all whitespace and the default guild id is positive |
| ConfigSchemas.ValidateActivity | minebot/src/model/schemas.py:200-225 | an activity is accepted exactly when its type, PLAYING by default and upper-cased, is a known one, any URL matches the URL pattern, and a URL is given exactly for STREAMING |
| ConfigSchemas.DefaultActivityHasNoUrl | minebot/src/model/schemas.py:217-225 | an activity without a type is accepted exactly when it has no URL, and then it is PLAYING |
| ConfigSchemas.ValidateStatus | minebot/src/model/schemas.py:228-237 | a status is accepted when absent or one of the four statuses ignoring case, and stored upper-cased |
| ConfigSchemas.ValidateDatabaseUrl | minebot/src/model/schemas.py:240-263 | a URL is accepted exactly when it is not blank and matches the pattern of its driver prefix; a blank URL gets its own error |
| ConfigSchemas.ComposedServerUrlAccepted | minebot/src/model/schemas.py:249-260 | every MySQL or PostgreSQL URL composed of user, password, host, numeric port and database is accepted |
| ConfigSchemas.MysqlUrlAccepted | minebot/src/model/schemas.py:249-260 | a typical MySQL URL is accepted |
| ConfigSchemas.SqliteNeedsThirdSlash | minebot/src/model/schemas.py:249-260 | a SQLite URL needs the third slash |
| ConfigSchemas.PostgresWithoutCredentialsRefused | minebot/src/model/schemas.py:249-260 | a PostgreSQL URL without credentials and port is refused |
| ConfigSchemas.ValidateWebSocket | minebot/src/model/schemas.py:266-274 | the websocket settings default to localhost, 8080, 127.0.0.1 and MineAcademy; they are accepted exactly when the port is 1 to 65535 and the password has at least 8 characters |
| ConfigSchemas.ValidateCooldown | minebot/src/model/schemas.py:293-302 | a cooldown is accepted exactly when its algorithm and bucket are known ignoring case and its window and count are positive; both are stored in lower case |
| ConfigSchemas.ValidatedCooldownHasHook | minebot/src/model/schemas.py:293-302 | every accepted cooldown builds a hook with its window, count and algorithm |
| ConfigSchemas.ValidatePermissions | minebot/src/model/schemas.py:305-316 | the permission list, empty when absent, is accepted exactly when every name is NONE or a known permission |
| ConfigSchemas.ValidatedPermissionsParse | minebot/src/model/schemas.py:305-316 | a permission list is accepted by the schema exactly when the command helper can parse it |
| ConfigSchemas.NameRun | minebot/src/model/schemas.py:378-380 | the length of the leading run of name characters |
| ConfigSchemas.FormatTokensAppend | minebot/src/model/schemas.py:378-380 | two channel formats written one after the other form a channel format |
| ConfigSchemas.PlaceholderIsFormat | minebot/src/model/schemas.py:378-380 | a braced placeholder name is a channel format |
| ConfigSchemas.CheckCategories | minebot/src/model/schemas.py:436-463 | the loop accepts the categories exactly when all agree with the first on having a button style and on their kind |
| ConfigSchemas.ValidateTicketSystem | minebot/src/model/schemas.py:400-463 | a ticket system is accepted exactly when it has 1 to 25 valid categories that agree with each other and positive channel, per-user limit and log ids |
| ConfigSchemas.ConsistentPairwise | minebot/src/model/schemas.py:436-463 | in an accepted category list any two categories agree on button style and kind |
| ConfigSchemas.ButtonStyledCategoriesHaveNoDescription | minebot/src/model/schemas.py:383-389 | when the categories use button styles none of them has a description |
| ExpiryHeap.RootIsMin | minebot/src/data_types/timed.py:141-142 | the root of a heap is ordered before every entry |
| ExpiryHeap.RootBoundsAll | minebot/src/data_types/timed.py:141 | when the root is not yet due, no entry is due, so the sweep may stop |
| ExpiryHeap.Push | minebot/src/data_types/timed.py:284-290 | pushing keeps heap order, adds exactly the new entry and grows the heap by one |
| ExpiryHeap.SiftDown | minebot/src/data_types/timed.py:141-142 | sifting down restores heap order without changing the entries |
| ExpiryHeap.PopMin | minebot/src/data_types/timed.py:141-142 | popping returns the root and leaves a heap of exactly the other entries |
| ExpiryHeap.Heapify | minebot/src/data_types/timed.py:196-197 | heapify yields a heap of the same entries |
| ExpiryHeap.PushAll | minebot/src/data_types/timed.py:284-294 | pushing a batch keeps heap order and adds exactly the batch's entries |
| ExpiryHeap.DeadlineKept | minebot/src/data_types/timed.py:184-218 | a heap that keeps a subset of the entries keeps every deadline whose entry it still holds |
| ExpiryHeap.DeadlineOf | minebot/src/data_types/timed.py:184-197 | finds the earliest pending expiry of a key that is not older than its timestamp |
| GlobalState.UserIdOf | minebot/src/core/global_state.py:179-183 | a user and a raw id give the same id |
| GlobalState.TaskKeyOf | minebot/src/core/global_state.py:179-183 | the task key is the user's id paired with the punishment type |
| GlobalState.KeyIndependentOfUserForm | minebot/src/core/global_state.py:179-183 | a user object and its raw id address the same task |
| GlobalState.TasksOfUser | minebot/src/core/global_state.py:281-288 | the user's tasks are exactly the registry entries with that user's id, by punishment type |
| GlobalState.RegistryAddOrRefresh | minebot/src/core/global_state.py:215-226 | the key maps to the new task, every other entry is kept, and a replaced task is cancelled |
| GlobalState.TasksState.constructor | minebot/src/core/global_state.py:173-176 | the registry starts empty with nothing cancelled |
| GlobalState.TasksState.HasTask | minebot/src/core/global_state.py:185-188 | a task exists exactly when the user's key is in the registry |
| GlobalState.TasksState.GetTask | minebot/src/core/global_state.py:190-194 | the task is found exactly when it exists, and is the registered one |
| GlobalState.TasksState.AddTask | minebot/src/core/global_state.py:196-213 | adds the task and returns true exactly when the key was free; otherwise nothing changes |
| GlobalState.TasksState.AddOrRefreshTask | minebot/src/core/global_state.py:215-226 | the registry becomes the add-or-refresh of the old one |
| GlobalState.TasksState.RefreshTask | minebot/src/core/global_state.py:228-240 | replaces the task and returns true exactly when the key was present; otherwise nothing changes |
| GlobalState.TasksState.CancelTask | minebot/src/core/global_state.py:242-258 | returns true exactly when the key was present; the key is removed and its task cancelled |
| GlobalState.TasksState.RemoveTask | minebot/src/core/global_state.py:260-279 | returns true exactly when the key was present; the key is removed and nothing is cancelled |
| GlobalState.TasksState.GetAllTasksForUser | minebot/src/core/global_state.py:281-288 | the result maps exactly the user's punishment types to their tasks |
| GlobalState.CommandState.constructor | minebot/src/core/global_state.py:78-81 | no command has sync state at first |
| GlobalState.CommandState.AddSyncState | minebot/src/core/global_state.py:84-91 | the command's sync flags are set and then read back |
| GlobalState.CommandState.GetCommandSyncState | minebot/src/core/global_state.py:94-96 | the flags are found exactly when the command was registered |
| GlobalState.CommandState.IsMinecraftToDiscord | minebot/src/core/global_state.py:99-101 | true exactly when the command is registered with Minecraft-to-Discord sync on; false when unregistered |
| GlobalState.CommandState.IsDiscordToMinecraft | minebot/src/core/global_state.py:104-106 | true exactly when the command is registered with Discord-to-Minecraft sync on; false when unregistered |
| GlobalState.ServerNames | minebot/src/core/global_state.py:118-123 | a single server name becomes a one-element list |
| GlobalState.MinecraftState.constructor | minebot/src/core/global_state.py:109-115 | no servers and empty ten-second caches at first |
| GlobalState.MinecraftState.AddServer | minebot/src/core/global_state.py:118-123 | the names are appended to the server list in order |
| GlobalState.MinecraftState.GetServers | minebot/src/core/global_state.py:126-131 | a copy of the server list |
| GlobalState.MinecraftState.ContainsServer | minebot/src/core/global_state.py:133-136 | true exactly when the name is in the server list |
| GlobalState.MinecraftState.ClearServers | minebot/src/core/global_state.py:138-141 | the server list becomes empty and the caches are untouched |
| GlobalState.MinecraftState.AddOnlinePlayer | minebot/src/core/global_state.py:143-146 | the player is recorded as online now |
| GlobalState.MinecraftState.CheckPlayerOnline | minebot/src/core/global_state.py:148-151 | true exactly when the player is still in the cache after the sweep |
| GlobalState.MinecraftState.AddPlayerUuid | minebot/src/core/global_state.py:153-156 | the player's uuid is stored with the current time |
| GlobalState.MinecraftState.GetPlayerUuid | minebot/src/core/global_state.py:158-161 | the stored uuid when the entry survives the sweep, else nothing |
| GlobalState.MinecraftState.AddPlayerServer | minebot/src/core/global_state.py:163-166 | the player's server is stored with the current time |
| GlobalState.MinecraftState.GetPlayerServer | minebot/src/core/global_state.py:168-171 | the stored server when the entry survives the sweep, else nothing |
| MessageTypes.Name | minebridge/minebridge-core/src/main/java/org/mineacademy/minebridge/core/model/MessageType.java:9-16 | each constant's name is non-empty and has no lower-case letter |
| MessageTypes.NamesDistinct | minebridge/minebridge-core/src/main/java/org/mineacademy/minebridge/core/model/MessageType.java:9-16 | no two constants share a name |
| MessageTypes.BuildLookup | minebridge/minebridge-core/src/main/java/org/mineacademy/minebridge/core/model/MessageType.java:22-29 | the lookup table maps each constant's upper-cased name to it and holds nothing else |
| MessageTypes.FromString | minebridge/minebridge-core/src/main/java/org/mineacademy/minebridge/core/model/MessageType.java:45-50 | null gives nothing; a string gives the constant whose name equals it ignoring case, or nothing when none does |
| MessageTypes.ToString | minebridge/minebridge-core/src/main/java/org/mineacademy/minebridge/core/model/MessageType.java:34-36 | the lower-case name, which upper-cases back to the constant's name |
| MessageTypes.FromToString | minebridge/minebridge-core/src/main/java/org/mineacademy/minebridge/core/model/MessageType.java:34-50 | reading back a constant's string form gives the constant |
| MessageTypes.FromStringIgnoresCase | minebridge/minebridge-core/src/main/java/org/mineacademy/minebridge/core/model/MessageType.java:45-50 | the lookup ignores case |
| WireSchemas.PutClient | minebot/src/websocket/actions/response/authenticate.py:29 | storing a connection's authentication replaces the entry with that id in place, or appends it when the id is new |
| WireSchemas.ReplaceClient | minebot/src/websocket/actions/response/authenticate.py:29 | replacing keeps the order and length and changes only the entries with that id |
| WireSchemas.DelClient | minebot/src/websocket/listener.py:142-143 | after removal no entry has that id and every other entry is kept |
| WireSchemas.PutClientHas | minebot/src/websocket/actions/response/authenticate.py:29 | after storing, an id is present exactly when it is the stored one or was present before |
| WireSchemas.ValidateServer | minebot/src/websocket/schemas/base.py:20-34 | a server name is accepted exactly when it is all, bungeecord or velocity, or an authenticated plugin advertises it; otherwise the error names the server |
| WireSchemas.DefaultAction | minebot/src/websocket/schemas/base.py:7-12 | each schema has a non-empty default action name |
| WireSchemas.DefaultActionInjective | minebot/src/websocket/schemas/base.py:7-12 | distinct schemas have distinct default actions |
| WireSchemas.ActionField | minebot/src/websocket/schemas/base.py:7-12 | the action is the given one, or the schema's default when absent |
| WireSchemas.ValidatePlayer | minebot/src/websocket/schemas/response/player_status_check.py:9-17 | accepted exactly when the username fits 16 and the uuid 36 characters and at least one of them is given |
| WireSchemas.ParsePlayerStatusCheck | minebot/src/websocket/schemas/response/player_status_check.py:6-17 | parsed exactly when the player fields validate; keeps the fields and defaults the action |
| WireSchemas.ParsePlayerServerCheck | minebot/src/websocket/schemas/response/player_server_check.py:6-17 | parsed exactly when the player fields validate; keeps the fields and defaults the action |
| WireSchemas.ParseMessageTypeValue | minebot/src/model/ready.py:19-28 | the message type whose value is exactly the string, or nothing when none is |
| WireSchemas.ParseSendPlayerMessage | minebot/src/websocket/schemas/request/send_player_message.py:8-20 | parsed exactly when the message type is a known value and the player fields validate; keeps the fields and defaults the action |
| WireSchemas.NormalizeCommands | minebot/src/websocket/schemas/request/dispatch_command.py:11-14 | a single command becomes a one-element list, a list is kept |
| WireSchemas.NormalizeIdempotent | minebot/src/websocket/schemas/request/dispatch_command.py:11-14 | normalising a normalised command list changes nothing |
| WireSchemas.ParseDispatchCommand | minebot/src/websocket/schemas/request/dispatch_command.py:6-14 | parsed exactly when the server is valid; the commands are normalised to a list |
| MinecraftHelpers.ResolveIdentifier | minebot/src/helper/minecraft.py:28-71 | a user given with a username or uuid is an error, and so is giving neither or both of username and uuid; a user resolves to its stored uuid, or to nothing when none is stored; otherwise the given username or uuid is the identifier |
| MinecraftHelpers.QueryNamesIdentifier | minebot/src/helper/minecraft.py:141-146 | a status or server request always names the player the identifier resolved to |
| MinecraftHelpers.StatusRead | minebot/src/helper/minecraft.py:134-150 | a cached online player answers true without a request; otherwise building the status request fails exactly when the username is over 16 or the uuid over 36 characters, and else one status request is sent and the answer is the cache after the wait; every request sent passes the schema |
| MinecraftHelpers.FetchPlayerStatus | minebot/src/helper/minecraft.py:100-150 | false without servers or without an identifier; an error exactly when resolution fails or a player not cached online has names over the schema's length limits; with servers known and no error, true exactly when the player is online in the cache before or after the request; a request is sent only on a cache miss, and passes the schema |
| MinecraftHelpers.FetchPlayerUuid | minebot/src/helper/minecraft.py:153-174 | an error exactly when servers are known and a non-empty username not cached online is over 16 characters; a uuid is returned exactly when servers are known and the player is online in the cache before or after the status request with a non-empty cached uuid, and it is that cached uuid; at most the one status request by username is sent, and only on a cache miss |
| MinecraftHelpers.CachedServer | minebot/src/helper/minecraft.py:210-213 | a cached server is one stored and non-empty |
| MinecraftHelpers.FetchPlayerServer | minebot/src/helper/minecraft.py:176-247 | nothing without servers; an error exactly when resolution fails, or the names break the length limits and a request must be built (no cached server, and the player is not cached online or more than one server is known); a cached server answers at once; a server found otherwise belongs to an online player; every request sent passes the schema |
| MinecraftHelpers.SingleServerShortcut | minebot/src/helper/minecraft.py:230-233 | an online player whose server is not cached is placed on the only known server without a server request |
| MinecraftHelpers.SendPlayerMessage | minebot/src/helper/minecraft.py:250-311 | false without servers; an error exactly when resolution fails or the resolved names break the length limits; without an error, the message is sent and true returned exactly when the status lookup answers true, after its requests; otherwise only status requests go out; every request sent passes the schema |
| MinecraftHelpers.OnlyLengthsRefuse | minebot/src/websocket/schemas/response/player_status_check.py:9-17 | a lookup always sends a username or a uuid, so only the 16- and 36-character limits can refuse its request |
| MinecraftHelpers.LongUsernameRefused | minebot/src/websocket/schemas/response/player_status_check.py:9-10 | a username over 16 characters that is not cached online makes the status lookup an error rather than False |
| MinecraftHelpers.SendGlobalMessage | minebot/src/helper/minecraft.py:314-338 | the broadcast is sent and true returned exactly when servers are known |
| MinecraftHelpers.SendServerMessage | minebot/src/helper/minecraft.py:341-373 | a server missing from the list answers false and sends nothing; a listed server that is neither built in nor advertised by an authenticated plugin makes the request schema raise; otherwise the message is sent and true returned |
| MinecraftHelpers.DispatchCommand | minebot/src/helper/minecraft.py:376-402 | false without servers; with servers, an error exactly when the server is missing from the list or the request schema refuses it; otherwise the normalised commands are dispatched to that server and true returned |
| MinecraftHelpers.UnknownServerRefused | minebot/src/helper/minecraft.py:356-358 | with servers known, a server missing from the list makes the server message answer false with nothing sent and the dispatch an error |
| MinecraftHelpers.ListedServerAccepted | minebot/src/websocket/schemas/base.py:20-35 | when every listed server is "all" or advertised by a plugin in the table, a listed server passes the request schema: the server message does not raise and the dispatch is sent |
| MinecraftHelpers.DefaultItems | minebot/src/helper/minecraft.py:458 | the default items as a list, empty when there are none |
| MinecraftHelpers.MapRewards | minebot/src/helper/minecraft.py:458-476 | (corrected mapping, in which a single command stays one command; see Findings) the default key is never rewarded; a known server gets its own items, any other key the default items, each with the player's name and uuid substituted |
| MinecraftHelpers.SingleCommandKept | minebot/src/helper/minecraft.py:463-470 | (corrected mapping, in which a single command stays one command; see Findings) a server configured with a single command gets that one command, substituted |
| MinecraftHelpers.SingleCommandSplitAsWritten | minebot/src/helper/minecraft.py:463-470 | as written, a single command string is split into one item per character, unlike the corrected mapping |
| MinecraftHelpers.MapRewardsLoop | minebot/src/helper/minecraft.py:462-476 | the loop over the configured keys builds the corrected mapping |
| MinecraftHelpers.AddedInOrder | minebot/src/helper/minecraft.py:478-482 | items are added per server with a non-empty list, in configuration order |
| MinecraftHelpers.AddRewards | minebot/src/helper/minecraft.py:414-487 | (corrected mapping, in which a single command stays one command; see Findings) no rewards give false; only configured roles the bot could assign are given, and all of them when the guild is fetched; items are added only for a linked player with username and uuid, and for such a player with items configured they are exactly the non-empty lists of the mapping in configuration order; success exactly when a role or an item was given |
| MinecraftHelpers.GiveRewards | minebot/src/helper/minecraft.py:489-541 | nothing happens unless exactly one of user and id is given; an error exactly when that user is stored with rewards and the server lookup by its uuid errs; the rewards are given exactly when the lookup names a non-empty server, that server has pending items and their dispatch answers true (a dispatch that raises gives false); a hand-out sends that dispatch and writes the user back with that server's list emptied, and nothing is written otherwise |
| MinecraftHelpers.HandoutClearsServer | minebot/src/helper/minecraft.py:529-534 | after a hand-out the stored user keeps its name and uuid and only the served server's inventory is emptied |
| MinecraftHelpers.NoUuidIsError | minebot/src/helper/minecraft.py:514-517 | a linked user with pending items but no stored uuid makes the hand-out fail |
| MinecraftHelpers.CachedUuidNeedsNoRequest | minebot/src/helper/minecraft.py:168-173 | an online player whose uuid is cached gets it without any request being sent |
| ModerationEvents.Abs | minebot/src/events/moderation/ban.py:52 | the absolute time difference |
| ModerationEvents.LogFor | minebot/src/events/moderation/ban.py:42-75 | a new log row is written exactly when there is no earlier row or the latest one is at least 120 seconds away from the event; otherwise the latest row is used |
| ModerationEvents.BanSync | minebot/src/events/moderation/ban.py:86-96 | the ban sent to all servers by MineBot names the Minecraft player and the reason; a ban with a duration is sent as a temporary ban with the duration in seconds |
| ModerationEvents.Finish | minebot/src/events/moderation/ban.py:81-116 | a sync command is sent exactly when Discord-to-Minecraft sync is on and the user has a Minecraft name; the log message is sent only when sync did not stop the handler and both users can be fetched |
| ModerationEvents.OnBanCreate | minebot/src/events/moderation/ban.py:20-116 | events without a target, of another kind or without a staff member are ignored; otherwise a ban row is written outside the 120-second window and the ban is synchronised from the row in use |
| ModerationEvents.CancelTask | minebot/src/core/global_state.py:242-258 | cancelling removes the key, cancels its task if any, and leaves the store, timers and effects alone |
| ModerationEvents.OnBanDelete | minebot/src/events/moderation/unban.py:19-122 | an unban deletes the latest temporary ban and cancels its task, writes an unban row outside the 120-second window, and sends the unban to all servers when sync is on and the user has a Minecraft name |
| ModerationEvents.OnMemberUpdate | minebot/src/events/moderation/timeout.py:20-158 | only timeouts being set by a staff member are taken; a temporary timeout more than 120 seconds old marks a renewal and is ignored; a new row records the time left until the timeout's end; the timeout is synchronised with its duration when sync is on |
| ModerationEvents.SyncDurationParses | minebot/src/events/moderation/timeout.py:134 | the duration sent as whole seconds with an s suffix parses back to the same number of seconds |
| ModerationEvents.RefreshEditLoggedAgain | minebot/src/events/moderation/timeout.py:48-108 | the bot's own refresh edit of a long timeout is not seen as a renewal and is logged as a new 28-day timeout |
| PluginSocket.MethodEntries | minebridge/minebridge-core/src/main/java/org/mineacademy/minebridge/core/websocket/WebSocketActionHandler.java:37-44 | one table entry per annotation of the method, with its action, the instance, the method and the annotation's schema |
| PluginSocket.EntriesOfClass | minebridge/minebridge-core/src/main/java/org/mineacademy/minebridge/core/websocket/WebSocketActionHandler.java:32-51 | every entry registered for a class comes from one of its public methods' annotations, and every annotation gives an entry |
| PluginSocket.PutAllKeys | minebridge/minebridge-core/src/main/java/org/mineacademy/minebridge/core/websocket/WebSocketActionHandler.java:43 | after the puts the table's actions are the old ones plus the registered ones |
| PluginSocket.PutAllKeeps | minebridge/minebridge-core/src/main/java/org/mineacademy/minebridge/core/websocket/WebSocketActionHandler.java:43 | an action not registered again keeps its method |
| PluginSocket.PutAllLast | minebridge/minebridge-core/src/main/java/org/mineacademy/minebridge/core/websocket/WebSocketActionHandler.java:43 | an action maps to the last method registered for it |
| PluginSocket.PutAllAppend | minebridge/minebridge-core/src/main/java/org/mineacademy/minebridge/core/websocket/WebSocketActionHandler.java:35-44 | registering two batches one after the other is registering them together |
| PluginSocket.Dispatch | minebridge/minebridge-core/src/main/java/org/mineacademy/minebridge/core/websocket/WebSocketActionHandler.java:54-83 | a frame reaches a method exactly when it is a JSON object with a primitive action registered in the table and, for a typed schema, binds to it; raw-text handlers get the message itself, typed ones the bound schema; handled exactly when invoked without an exception |
| PluginSocket.ActionHandler.constructor | minebridge/minebridge-core/src/main/java/org/mineacademy/minebridge/core/websocket/WebSocketActionHandler.java:18-20 | the table is empty and no client is set at first |
| PluginSocket.ActionHandler.SetClient | minebridge/minebridge-core/src/main/java/org/mineacademy/minebridge/core/websocket/WebSocketActionHandler.java:23-25 | sets the client and nothing else |
| PluginSocket.ActionHandler.PutMethod | minebridge/minebridge-core/src/main/java/org/mineacademy/minebridge/core/websocket/WebSocketActionHandler.java:37-49 | the table gains the method's annotated actions |
| PluginSocket.ActionHandler.RegisterClass | minebridge/minebridge-core/src/main/java/org/mineacademy/minebridge/core/websocket/WebSocketActionHandler.java:32-51 | the table gains every annotated action of the class; an aware instance with an annotated method gets the client |
| PluginSocket.ActionHandler.HandleMessage | minebridge/minebridge-core/src/main/java/org/mineacademy/minebridge/core/websocket/WebSocketActionHandler.java:54-83 | handling a frame gives the dispatch the specification function describes |
| PluginSocket.RegisteredActionReached | minebridge/minebridge-core/src/main/java/org/mineacademy/minebridge/core/websocket/WebSocketActionHandler.java:54-78 | a frame naming an action registered last for a raw-text method invokes that method with the message |
| PluginSocket.UnannotatedActionRefused | minebridge/minebridge-core/src/main/java/org/mineacademy/minebridge/core/websocket/WebSocketActionHandler.java:64-69 | a frame naming an action no method is annotated with is not handled |
| PluginSocket.BaseDelay | minebridge/minebridge-core/src/main/java/org/mineacademy/minebridge/core/websocket/Client.java:171-172 | the base delay lies between 5 and 60 seconds and is 60 seconds from the fifth attempt on |
| PluginSocket.BackoffDoubles | minebridge/minebridge-core/src/main/java/org/mineacademy/minebridge/core/websocket/Client.java:171-172 | each attempt doubles the base delay up to the one-minute cap: 5, 10, 20, 40 seconds |
| PluginSocket.Jitter | minebridge/minebridge-core/src/main/java/org/mineacademy/minebridge/core/websocket/Client.java:173 | the jitter is never negative and stays below a fifth of the base delay |
| PluginSocket.OnClose | minebridge/minebridge-core/src/main/java/org/mineacademy/minebridge/core/websocket/Client.java:126-195 | a close while reconnecting changes nothing; otherwise reconnection starts with no attempts and a first try after 5 seconds |
| PluginSocket.Fire | minebridge/minebridge-core/src/main/java/org/mineacademy/minebridge/core/websocket/Client.java:141-190 | every firing counts an attempt; past ten attempts, when already open, or once reconnected, reconnection stops; a refused attempt is retried after the base delay plus under 20 percent jitter; one that throws after the base delay |
| PluginSocket.SequenceEnds | minebridge/minebridge-core/src/main/java/org/mineacademy/minebridge/core/websocket/Client.java:141-190 | whatever the outcomes, enough firings end reconnection with nothing pending |
| PluginSocket.SequenceFromClose | minebridge/minebridge-core/src/main/java/org/mineacademy/minebridge/core/websocket/Client.java:126-194 | after a close at most eleven attempts are made, and eleven firings always end reconnection |
| PluginSocket.SequenceBounded | minebridge/minebridge-core/src/main/java/org/mineacademy/minebridge/core/websocket/Client.java:144-152 | the attempt count never exceeds eleven |
| PluginSocket.ReconnectingClient.constructor | minebridge/minebridge-core/src/main/java/org/mineacademy/minebridge/core/websocket/Client.java:42 | a new client is not reconnecting and has nothing scheduled |
| PluginSocket.ReconnectingClient.Close | minebridge/minebridge-core/src/main/java/org/mineacademy/minebridge/core/websocket/Client.java:126-195 | the client's state becomes the close transition of its old state |
| PluginSocket.ReconnectingClient.RunAttempt | minebridge/minebridge-core/src/main/java/org/mineacademy/minebridge/core/websocket/Client.java:141-190 | the client's state becomes the firing transition of its old state |
| PluginSocket.Authenticate | minebridge/minebridge-core/src/main/java/org/mineacademy/minebridge/core/websocket/Client.java:202-215 | the frame carries the authenticate action, the password and the server list in order |
| PluginSocket.AuthFrameAccepted | minebridge/minebridge-core/src/main/java/org/mineacademy/minebridge/core/websocket/Client.java:202-215 | the bot accepts the plugin's frame with the right password, adding its servers and all; with a wrong password it closes the connection |
| Recovery.RecoverBan | minebot/src/helper/punishment.py:117-156 | an expired ban is unbanned at once and its record deleted unless the call failed outright (not-found still deletes), registering nothing; a pending ban registers its unban timer under the member's ban key after exactly the time left |
| Recovery.RefreshOnRecoveryAsWritten | minebot/src/helper/punishment.py:236-307 | the refresh as written: one edit up to the 28-day ceiling, then the record stored again with the next refresh time or none, and no timer; properties in LongTimeoutLapsesAsWritten |
| Recovery.RefreshOnRecovery | minebot/src/helper/punishment.py:236-307 | the corrected refresh keeps every registered task valid and, after the same edit and record, arms the refresh chain or the expiry timer; properties in LongTimeoutRearmed and RecoveredTimeoutCoversExpiry |
| Recovery.RecoverTimeout | minebot/src/helper/punishment.py:181-234 | (corrected recovery, which re-arms a long timeout; see Findings) the timeout branch (expired, pending refresh, long without refresh, short) keeps every registered task pointing at a timer under its key; the branches are stated by the lemmas below |
| Recovery.ExpiredTimeoutOnlyDeletes | minebot/src/helper/punishment.py:197-201 | an expired timeout only loses its record: no Discord call, no timer, no registry change |
| Recovery.ShortTimeoutScheduled | minebot/src/helper/punishment.py:223-233 | a pending timeout within the ceiling and without refresh registers one removal timer under the member's timeout key, due when the time left runs out, and changes nothing else |
| Recovery.LongTimeoutLapsesAsWritten | minebot/src/helper/punishment.py:209-222 | as written, a timeout with more than 28 days left gets one edit to now + 28 days, keeps its record and expiry, and no timer or task is registered, so Discord lifts it before its recorded expiry |
| Recovery.LapseExample | minebot/src/helper/punishment.py:209-222 | a concrete record with three periods left ends recovery with a single edit and no task for the member |
| Recovery.LongTimeoutRearmed | minebot/src/helper/punishment.py:209-222 | with the corrected refresh, a long timeout registers a refresh timer under the member's timeout key, due after the ceiling, carrying the recorded expiry |
| Recovery.RecoveredTimeoutCoversExpiry | minebot/src/helper/punishment.py:236-307 | the corrected recovery followed by its refresh chain edits the member to now + 28 days and then to every chain end, the last being the recorded expiry |
| Recovery.RecoverOne | minebot/src/helper/punishment.py:106-115 | (corrected recovery, which re-arms a long timeout; see Findings) a record without id is skipped; the type lookup fails exactly when the upper-cased type is no enum member name, and then nothing changes and the pass reports the error |
| Recovery.RecoverAll | minebot/src/helper/punishment.py:82-115 | (corrected recovery, which re-arms a long timeout; see Findings) the pass over the stored records, in order, keeps every registered task valid; stopping is stated by RecoverAllStops |
| Recovery.SchedulePunishmentTasks | minebot/src/helper/punishment.py:106-115 | (corrected recovery, which re-arms a long timeout; see Findings) the recovery loop ends in exactly the world and error of the pass over all records |
| Recovery.RecoverAllStops | minebot/src/helper/punishment.py:110 | once a record's type lookup raised, no later record is handled |
| Recovery.WrittenRecordsNeverStop | minebot/src/helper/punishment.py:110 | a record whose type is one of the enum's values never makes the lookup raise |
| Scheduling.TypeValue | minebot/src/model/ready.py:31-38 | every punishment type's stored value is a non-empty lower-case string |
| Scheduling.MemberNameIsUpperValue | minebot/src/model/ready.py:31-38 | each enum member's name is its value upper-cased |
| Scheduling.TypeByName | minebot/src/helper/punishment.py:110 | attribute lookup by name finds a member exactly when the name is some member's name, and then that member |
| Scheduling.TypeValueRoundTrip | minebot/src/helper/punishment.py:110 | a stored type whose lower-case form is a member's value finds that member again after upper-casing |
| Scheduling.GetReason | minebot/src/helper/punishment.py:59-72 | a non-empty reason is used for both texts; without one, the no-reason text in the default locale for both, or the (localized, default) pair when a locale is given |
| Scheduling.Schedule | minebot/src/core/global_state.py:215-226 | registering a new timer appends it, points the key at it (cancelling the timer it replaces) and keeps every registered task valid; nothing else changes |
| Scheduling.RefreshTimeout | minebot/src/websocket/actions/event/command_executed.py:72-145 | one firing of the timeout refresh chain keeps every registered task valid; its two branches are stated by RefreshStep |
| Scheduling.RunJob | minebot/src/helper/punishment.py:158-178 | every timer body keeps every registered task pointing at a timer under its key; the expiry bodies are stated by ExpiryJobsCleanUp |
| Scheduling.ExpiryJobsCleanUp | minebot/src/helper/punishment.py:310-333 | a ban or timeout expiry makes its Discord call, deletes the record unless the call failed outright, and forgets the member's task only when the call succeeded |
| Scheduling.RefreshStep | minebot/src/websocket/actions/event/command_executed.py:80-145 | a refresh on time with more than 28 days left edits the member to the next ceiling, stores that refresh time and re-arms after the ceiling; otherwise it edits to the exact expiry, clears the refresh time and arms the cleanup after the time left |
| Scheduling.ChainEnds | minebot/src/websocket/actions/event/command_executed.py:80-145 | the ends of the timeouts a chain applies; the last one is the recorded expiry |
| Scheduling.ChainEndsTile | minebot/src/websocket/actions/event/command_executed.py:80-145 | the applied timeouts are increasing, each at most 28 days after the previous one, and the last ends exactly at the expiry |
| Scheduling.Rearmed | minebot/src/websocket/actions/event/command_executed.py:86-96 | the record a long refresh stores keeps its id, member and expiry |
| Scheduling.FireChain | minebot/src/websocket/actions/event/command_executed.py:72-145 | the whole refresh chain, each timer firing on time, keeps every registered task valid |
| Scheduling.LongStep | minebot/src/websocket/actions/event/command_executed.py:86-115 | a long step's next timer carries the re-armed record and the next refresh time, after one edit to the ceiling |
| Scheduling.ShortStep | minebot/src/websocket/actions/event/command_executed.py:116-145 | the last step edits the member to the exact expiry and nothing more |
| Scheduling.FireChainEdits | minebot/src/websocket/actions/event/command_executed.py:72-145 | the chain's Discord edits are exactly the chain ends, in order |
| Scheduling.FireChainEnds | minebot/src/websocket/actions/event/command_executed.py:72-145 | at the end of the chain the record is kept with its expiry and no refresh time, and the member's timeout key holds the final cleanup |
| Scheduling.EditsTo | minebot/src/websocket/actions/event/command_executed.py:98-101 | one edit per chain end, in order, to that end |
| SettingsLookup.Step | minebot/src/settings/json_wrapper.py:178 | one attribute access succeeds exactly on an object having that attribute, and yields its value |
| SettingsLookup.WalkAppend | minebot/src/settings/json_wrapper.py:177-178 | walking a concatenated path is walking the first part and then the second from where it stopped |
| SettingsLookup.MissingPrefix | minebot/src/settings/json_wrapper.py:177-183 | once a name on the path is missing, every longer path is missing too |
| SettingsLookup.WalkOr | minebot/src/settings/json_wrapper.py:173-183 | the value at the path when every attribute exists, the default otherwise |
| SettingsLookup.PathOf | minebot/src/settings/json_wrapper.py:174 | a dotted key splits into at least one part, none containing a dot |
| SettingsLookup.SettingsGet | minebot/src/settings/json_wrapper.py:152-183 | not loaded is an error (and only then); otherwise the value at the key's dotted path, or the default when an attribute is missing |
| SettingsLookup.SettingsGetLoop | minebot/src/settings/json_wrapper.py:170-183 | the reassigning loop returns exactly SettingsGet |
| SettingsLookup.DottedKeyComposes | minebot/src/settings/json_wrapper.py:174-180 | a key made of dot-joined names reaches the value the name paths reach one after the other |
| SettingsLookup.LocalizationGet | minebot/src/settings/json_wrapper.py:436-470 | "all" on loaded data answers one value per loaded locale (the default where the path is missing); otherwise the value for the requested or guild locale, the default for an unknown locale or a missing path |
| SettingsLookup.MissingKeyGivesDefault | minebot/src/settings/json_wrapper.py:445-470 | a locale lacking the path answers the default, alone and inside the "all" answer |
| SettingsLookup.LoadedLocales | minebot/src/settings/json_wrapper.py:263-299 | the table holds exactly the stems of the files that name a known locale, parse and validate |
| SettingsLookup.LoadedLocaleNamesItself | minebot/src/settings/json_wrapper.py:282-288 | every stored locale carries its own name as its locale attribute |
| SettingsLookup.Localization.Load | minebot/src/settings/json_wrapper.py:218-312 | a missing directory exits and leaves nothing loaded; otherwise the table is reset and becomes exactly LoadedLocales of the files |
| SettingsLookup.Localization.Get | minebot/src/settings/json_wrapper.py:429-470 | a first call loads; loaded data is kept; a load that fails exits the process and gives no answer (the exit propagates out of the call); otherwise the answer is LocalizationGet on the loaded table |
| TempActions.Upsert | minebot/src/database/services/temporary_action.py:91-124 | the returned row is stored under its id with the given fields; an existing given id is overwritten in place, otherwise a row is created under the given id or the next auto-increment id (one not yet in use); every other row is kept |
| TempActions.Remove | minebot/src/database/repositories/temporary_action.py:102-112 | deletion reports true exactly when the id was stored, and the row is gone afterwards |
| TempActions.UpsertStoredIdempotent | minebot/src/database/services/temporary_action.py:108-118 | upserting a stored row's own content changes nothing |
| TempActions.DeleteAfterUpsert | minebot/src/database/services/temporary_action.py:120-142 | a newly created row can be deleted again, which restores the table's rows |
| TempActions.Below | minebot/src/database/repositories/temporary_action.py:190-204 | every listed row is a stored row matching the user and type filters |
| TempActions.BelowComplete | minebot/src/database/repositories/temporary_action.py:194-201 | every stored row matching the filters is listed |
| TempActions.BelowDescending | minebot/src/database/repositories/temporary_action.py:203-204 | the listing is in strictly descending id order (newest first) |
| TempActions.LatestIsNewest | minebot/src/database/repositories/temporary_action.py:114-151 | the latest row is a stored matching row with the highest id among matching rows; none exactly when no row matches |
| TempActions.Page | minebot/src/database/repositories/temporary_action.py:206-211 | pagination skips offset rows and keeps at most limit of the rest, in order |
| TempActions.Filtered | minebot/src/database/repositories/temporary_action.py:163-215 | the list query returns matching stored rows only, at most limit of them |
| TempActions.FilteredComplete | minebot/src/database/repositories/temporary_action.py:194-204 | without pagination every matching row is returned |
| TempActions.GetFiltered | minebot/src/database/services/temporary_action.py:144-199 | get_latest answers the single latest row or none; otherwise the filtered, paginated list |
| TempActions.TempActionStore.constructor | minebot/src/database/models/temporary_action.py:9-12 | a new table is empty and hands out id 1 first |
| TempActions.TempActionStore.CreateOrUpdate | minebot/src/database/services/temporary_action.py:91-124 | the table after the call and the returned row are exactly Upsert of the table before |
| TempActions.TempActionStore.DeleteRow | minebot/src/database/services/temporary_action.py:126-142 | the table after the call and the answer are exactly Remove of the table before |
| TempActions.TempActionStore.ListMatching | minebot/src/database/repositories/temporary_action.py:190-215 | the descending scan returns exactly Below of the table |
| TimeUnits.Seconds | minebot/src/helper/time.py:40-48 | every unit lasts at least one second, and only the second lasts exactly one |
| TimeUnits.CanonicalName | minebot/src/helper/time.py:40-48 | unit names are non-empty and lower-case |
| TimeUnits.AllUnitsSorted | minebot/src/helper/time.py:50-53 | the unit table is strictly descending by length and holds every unit |
| TimeUnits.ToSeconds | minebot/src/helper/time.py:93-103 | a unit name equal in any letter case to a canonical name gives value times that unit's seconds; any other name is an error |
| TimeUnits.AddFormsSound | minebot/src/helper/time.py:58-61 | each form added maps its lower-cased text to the unit being processed |
| TimeUnits.AliasesSound | minebot/src/helper/time.py:56-64 | every alias key is lower-case and is the canonical name or a lower-cased localized form of the unit it maps to |
| TimeUnits.AddFormsLoop | minebot/src/helper/time.py:60-61 | the inner loop over one unit's forms builds exactly AddForms |
| TimeUnits.BuildAliases | minebot/src/helper/time.py:56-64 | the constructor's double loop builds exactly the alias map of the whole unit table |
| TimeUnits.DigitRun | minebot/src/helper/time.py:69 | the digit run starting at a position is maximal and consists of digits only |
| TimeUnits.SpaceRun | minebot/src/helper/time.py:69 | the whitespace run is maximal and consists of whitespace only |
| TimeUnits.LetterRun | minebot/src/helper/time.py:69 | the letter run is maximal and consists of ASCII letters only |
| TimeUnits.Scan | minebot/src/helper/time.py:69 | every match carries a non-empty unit made of ASCII letters |
| TimeUnits.ScanNoDigit | minebot/src/helper/time.py:219-221 | without any digit there is no match |
| TimeUnits.TotalSecondsAppend | minebot/src/helper/time.py:223-236 | the sum over concatenated matches is the sum of the two sums |
| TimeUnits.UnknownUnitAddsNothing | minebot/src/helper/time.py:237-238 | a match whose unit is no alias contributes nothing wherever it appears |
| TimeUnits.ParseTimeString | minebot/src/helper/time.py:187-245 | the result is the sum of value times seconds over the matches of the lower-cased input whose unit is an alias; the empty string gives zero |
| TimeUnits.ScanOnePair | minebot/src/helper/time.py:69 | digits directly followed by letters are matched as exactly one number-and-unit pair, with the digits' decimal value |
| TimeUnits.ParseIgnoresCase | minebot/src/helper/time.py:217 | inputs equal up to letter case parse to the same duration |
| TimeUnits.ParseWithoutDigits | minebot/src/helper/time.py:219-221 | an input without digits parses to zero |
| TimeUnits.Decompose | minebot/src/helper/time.py:138-155 | every rendered part has a positive value and a unit of the table |
| TimeUnits.DecomposeBounded | minebot/src/helper/time.py:153-155 | at most max_units parts are rendered (one when max_units is below one) |
| TimeUnits.DecomposeBelow | minebot/src/helper/time.py:140-151 | the rendered parts never add up to more than the input |
| TimeUnits.DecomposeExact | minebot/src/helper/time.py:140-151 | with seconds included and the part limit not reached, the parts add up to exactly the input |
| TimeUnits.DecimalString | minebot/src/helper/time.py:150 | the decimal text consists of digits and reads back as the number |
| TimeUnits.IntString | minebot/src/helper/time.py:150 | Python's str of an integer: the decimal text, with a leading minus for a negative number |
| TimeUnits.RenderParts | minebot/src/helper/time.py:147-150 | one rendered text per part, in order |
| TimeUnits.FormatZero | minebot/src/helper/time.py:134-136 | zero renders as "0 " followed by the first plural form of second |
| TimeUnits.FormatNegative | minebot/src/helper/time.py:131-160 | a negative duration renders as its magnitude with a leading "-" |
| TimeUnits.DecomposeLoop | minebot/src/helper/time.py:138-155 | the greedy loop over a unit table produces exactly Decompose over that table; it is run on the whole table |
| TimeUnits.FromTimedelta | minebot/src/helper/time.py:105-163 | the method renders exactly Format |
| Timed.AdaptiveThreshold | minebot/src/data_types/timed.py:166-171 | the adaptive stale threshold lies between 1000 and 10000, and is 1000 for up to 10000 keys |
| Timed.CheckExpiration | minebot/src/data_types/timed.py:71-72 | construction succeeds exactly for a positive expiration time, which is kept |
| Timed.PopDue | minebot/src/data_types/timed.py:131-149 | popping leaves a heap holding exactly the entries not yet due, counts one pop per removed entry, and names exactly the stored keys that have a due entry and a timestamp at least T old |
| Timed.SweepKeeps | minebot/src/data_types/timed.py:131-149 | after a sweep every surviving key still has a covering entry, keeps its deadline, and that deadline lies after now |
| Timed.SweepReachesDeadline | minebot/src/data_types/timed.py:138-147 | a stored key whose deadline has passed is deleted by the sweep |
| Timed.NoExpiryBeforeTtl | minebot/src/data_types/timed.py:143-146 | no sweep deletes a key whose timestamp is less than T old, whatever stale entries the heap holds |
| Timed.KeepKeys | minebot/src/data_types/timed.py:199-217 | the compaction never grows the heap |
| Timed.KeepKeysMembers | minebot/src/data_types/timed.py:199-217 | the compaction keeps exactly the entries whose key is still stored |
| Timed.FilterInPlace | minebot/src/data_types/timed.py:199-217 | the two-pointer loop produces exactly KeepKeys |
| Timed.FreshEntries | minebot/src/data_types/timed.py:183-197 | the corrected from-scratch path gives one fresh entry per stored key, at that key's deadline, numbered after the counter |
| Timed.FreshKeeps | minebot/src/data_types/timed.py:183-197 | a heap of those fresh entries covers every stored key, keeps every deadline and holds only stored keys |
| Timed.FilterKeeps | minebot/src/data_types/timed.py:199-217 | a heap of the entries of stored keys covers every key and keeps every deadline |
| Timed.FreshEntriesAsWritten | minebot/src/data_types/timed.py:189-193 | the from-scratch path as written only pushes entries expiring after now, at timestamp + T |
| Timed.UncoveredNeverExpires | minebot/src/data_types/timed.py:138-147 | a key with no heap entry is never deleted by any sweep |
| Timed.RebuildAsWrittenLosesKey | minebot/src/data_types/timed.py:189-193 | a key extended past its base lifetime gets no entry from the as-written rebuild and then is never deleted |
| Timed.RebuildHeap | minebot/src/data_types/timed.py:161-232 | (corrected rebuild, which keeps extended deadlines; see Findings) below both thresholds nothing changes; otherwise the stale counter is reset and the new heap holds only stored keys; either way every key stays covered with its deadline and sequence numbers never go back |
| Timed.BatchEntries | minebot/src/data_types/timed.py:263-281 | one entry per key of the batch |
| Timed.RestampMembers | minebot/src/data_types/timed.py:269-274 | after add the stored keys are the old ones plus the batch, each batch key stamped now and the others unchanged |
| Timed.PushBatch | minebot/src/data_types/timed.py:283-294 | pushing a batch one by one or by extend-and-heapify gives a heap holding the old entries plus the batch |
| Timed.BatchKeeps | minebot/src/data_types/timed.py:263-294 | after a batch is pushed every key is covered, sequence numbers stay below the new counter, and each batch key's deadline is now + T |
| Timed.ExtendKeeps | minebot/src/data_types/timed.py:420-430 | the extension entry covers the key until now + T + extra while every key stays covered |
| Timed.Stamps | minebot/src/data_types/timed.py:730-758 | the timestamp view has the dictionary's keys and each entry's timestamp |
| Timed.Firsts | minebot/src/data_types/timed.py:994-1026 | one key per pair |
| Timed.AssignStamps | minebot/src/data_types/timed.py:994-1026 | after update the timestamps are the old ones with every named key stamped now |
| Timed.AssignOthers | minebot/src/data_types/timed.py:994-1026 | a key no pair names keeps its entry |
| Timed.AssignLastWins | minebot/src/data_types/timed.py:994-1026 | the value stored for a key is that of the last pair naming it |
| Timed.StampBatch | minebot/src/data_types/timed.py:269-281 | the stamping loop gives exactly Restamp and BatchEntries, and advances the counter by the batch size |
| Timed.RemoveKeys | minebot/src/data_types/timed.py:333-341 | the removal loop deletes exactly the given keys and counts those that were present |
| Timed.AssignBatch | minebot/src/data_types/timed.py:999-1026 | the update loops give exactly Assign and the batch entries, advancing the counter by the number of pairs |
| Timed.TimedSet.constructor | minebot/src/data_types/timed.py:56-93 | a new set is empty, with the given expiration time and mode and both counters at zero |
| Timed.TimedSet.New | minebot/src/data_types/timed.py:71-72 | construction fails exactly for a non-positive expiration time |
| Timed.TimedSet.Sweep | minebot/src/data_types/timed.py:131-159 | (corrected rebuild, which keeps extended deadlines; see Findings) a sweep deletes exactly the expired keys, keeps every survivor's deadline and leaves no passed deadline |
| Timed.TimedSet.Add | minebot/src/data_types/timed.py:239-305 | every key is stamped now and gets exactly one fresh entry with deadline now + T; nothing else changes |
| Timed.StampAndPush | minebot/src/data_types/timed.py:239-305 | the stamps are restamped at now, the heap gains exactly one entry per key with deadline now + T, keeps its order and covers every stamp |
| Timed.TimedSet.Remove | minebot/src/data_types/timed.py:307-356 | (corrected rebuild, which keeps extended deadlines; see Findings) exactly the given keys are deleted, the count of present ones is returned, and survivors keep their deadlines |
| Timed.RemoveAndRebuild | minebot/src/data_types/timed.py:307-356 | (corrected rebuild, which keeps extended deadlines; see Findings) deletes exactly the given keys, counts the present ones, and keeps the heap ordered with every survivor's deadline |
| Timed.TimedSet.Clear | minebot/src/data_types/timed.py:358-366 | empties keys and heap and resets both counters |
| Timed.TimedSet.Contains | minebot/src/data_types/timed.py:368-382 | answers membership after the lazy sweep, and changes nothing when not lazy |
| Timed.TimedSet.TimeRemaining | minebot/src/data_types/timed.py:384-400 | None exactly for an absent key; otherwise max(0, T - age), which lies in [0, T] and is zero exactly once timestamp + T has passed |
| Timed.TimedSet.Extend | minebot/src/data_types/timed.py:402-436 | (corrected rebuild, which keeps extended deadlines; see Findings) succeeds exactly for a present key and a positive extra; then restamps it and pushes one entry covering now + T + extra; otherwise nothing changes |
| Timed.TimedSet.ItemsWithExpiry | minebot/src/data_types/timed.py:438-449 | each stored key with timestamp + T, which is never later than its deadline |
| Timed.TimedSet.Len | minebot/src/data_types/timed.py:455-459 | the number of stored keys |
| Timed.TimedDict.constructor | minebot/src/data_types/timed.py:545-582 | a new dictionary is empty, with the given expiration time and mode and both counters at zero |
| Timed.TimedDict.New | minebot/src/data_types/timed.py:560-561 | construction fails exactly for a non-positive expiration time |
| Timed.TimedDict.Sweep | minebot/src/data_types/timed.py:620-651 | (corrected rebuild, which keeps extended deadlines; see Findings) a sweep deletes exactly the expired keys, keeps every survivor's deadline and leaves no passed deadline |
| Timed.TimedDict.Set | minebot/src/data_types/timed.py:730-764 | stores (value, now) and pushes one fresh entry giving the key the deadline now + T |
| Timed.StoreAndPush | minebot/src/data_types/timed.py:730-764 | the stored map gains (value, now) for the key, the heap gains exactly one entry with deadline now + T and stays ordered |
| Timed.TimedDict.Get | minebot/src/data_types/timed.py:766-785 | the stored value, or KeyError exactly when the key is absent after the lazy sweep |
| Timed.TimedDict.GetOr | minebot/src/data_types/timed.py:787-802 | the stored value, or the default for an absent key |
| Timed.TimedDict.Pop | minebot/src/data_types/timed.py:804-826 | removes the key and returns its value; for an absent key the default, or KeyError when there is none |
| Timed.TimedDict.TimeRemaining | minebot/src/data_types/timed.py:828-845 | None exactly for an absent key; otherwise max(0, T - age) in [0, T] |
| Timed.TimedDict.Extend | minebot/src/data_types/timed.py:847-882 | (corrected rebuild, which keeps extended deadlines; see Findings) succeeds exactly for a present key and a positive extra; keeps the value, restamps it and pushes one entry covering now + T + extra |
| Timed.RefreshAndPush | minebot/src/data_types/timed.py:847-882 | (corrected rebuild, which keeps extended deadlines; see Findings) the key keeps its value and is restamped now; the heap gains one entry covering now + T + extra (before any rebuild), keeps its order and covers every entry |
| Timed.TimedDict.Clear | minebot/src/data_types/timed.py:884-892 | empties entries and heap and resets both counters |
| Timed.TimedDict.Contains | minebot/src/data_types/timed.py:894-908 | answers membership after the lazy sweep, and changes nothing when not lazy |
| Timed.TimedDict.Delete | minebot/src/data_types/timed.py:914-921 | KeyError exactly for an absent key; the key is gone and the heap is untouched |
| Timed.TimedDict.ItemsWithExpiry | minebot/src/data_types/timed.py:969-981 | each stored key with its value and timestamp + T |
| Timed.TimedDict.Len | minebot/src/data_types/timed.py:923-927 | the number of stored keys |
| Timed.TimedDict.Update | minebot/src/data_types/timed.py:983-1038 | the mapping's pairs and then the keyword pairs are stored at now, each getting one fresh entry with deadline now + T |
| Timed.AssignAndPush | minebot/src/data_types/timed.py:983-1038 | the pairs are assigned in order at now, the heap gains exactly one entry per pair with deadline now + T, keeps its order and covers every entry |
| Users.InvalidKeys | minebot/src/database/schemas/user.py:27-30 | the rejected keys are exactly the inventory keys that name no known server |
| Users.InventoryError | minebot/src/database/schemas/user.py:13-37 | no inventory, an empty one or an empty server list passes; otherwise it passes exactly when every key is a known server, and a failure names the non-empty set of bad keys |
| Users.Errors | minebot/src/database/schemas/user.py:6-37 | a record is accepted exactly when its id is positive, the username is at most 16 and the uuid at most 36 characters, and the inventory passes; each failing check is reported |
| Users.SubstituteKeepsPlain | minebot/src/database/repositories/user.py:137 | a command without placeholders is kept as it is |
| Users.ProcessItems | minebot/src/database/repositories/user.py:136-141 | one replaced command per given command, in order |
| Users.AsList | minebot/src/database/repositories/user.py:126 | a single command becomes a one-element list; a list is kept |
| Users.OrEmpty | minebot/src/database/repositories/user.py:132-133 | a missing username or uuid is replaced by the empty text |
| Users.Appended | minebot/src/database/repositories/user.py:144-147 | a new server gets the commands, a known server has them appended, and every other server is kept |
| Users.AddedItems | minebot/src/database/repositories/user.py:125-149 | only the inventory changes: the server's list gains the processed commands after the old ones, and other servers are kept |
| Users.Assigned | minebot/src/database/repositories/user.py:83-87 | the stored record takes the four given fields and keeps its id |
| Users.UnchangedIsAssigned | minebot/src/database/repositories/user.py:71-81 | skipping the write when no field differs leaves the same record the assignments would |
| Users.Merge | minebot/src/database/services/user.py:88-96 | username, uuid and inventory take the new value when it is truthy and the stored one otherwise; id and locale are the new ones |
| Users.MergeIdempotent | minebot/src/database/services/user.py:88-96 | merging twice equals merging once, and a stored linked account is never lost |
| Users.CreateOrUpdate | minebot/src/database/services/user.py:60-105 | an unknown id is created as given; a known one is updated with the data (merged when preserving), writing only on a change; a merged record failing the schema is rejected with its errors |
| Users.OverwriteTakesAll | minebot/src/database/services/user.py:98 | without preserving, the record takes every given field, empty ones included |
| Users.UserStore.constructor | minebot/src/database/models/user.py:7-14 | the table starts empty |
| Users.UserStore.Create | minebot/src/database/repositories/user.py:44-61 | the record is stored under its id |
| Users.UserStore.Update | minebot/src/database/repositories/user.py:63-91 | None and no change for an unknown id; otherwise the stored record becomes Assigned, written exactly when a field differs |
| Users.UserStore.Delete | minebot/src/database/repositories/user.py:93-104 | true exactly for a known id, which is then gone |
| Users.UserStore.AddItem | minebot/src/database/repositories/user.py:106-156 | false and no change for an unknown user; otherwise the record becomes AddedItems |
| Users.UserStore.CreateOrUpdateUser | minebot/src/database/services/user.py:60-105 | the result is CreateOrUpdate of the table, which is updated to match |
| Users.UserStore.DeleteUser | minebot/src/database/services/user.py:108-123 | the repository's answer: true exactly for a known id, which is then gone |
| Wiki.ValidFiles | minebot/src/helper/wiki.py:54-65 | a locale's pages are exactly the readable files within 4000 characters, by name |
| Wiki.Loaded | minebot/src/helper/wiki.py:45-71 | the table holds exactly the listed locales that have at least one valid page, each with its valid pages |
| Wiki.Paths | minebot/src/helper/wiki.py:78 | the file table of a locale: every page name with its path |
| Wiki.WikiFiles | minebot/src/helper/wiki.py:73-88 | the requested locale's files when it has any, else the guild locale's, else none |
| Wiki.WikiContent | minebot/src/helper/wiki.py:90-105 | the page from the requested locale when it has it, else from the guild locale, else none |
| Wiki.LoadedContentWithinLimit | minebot/src/helper/wiki.py:57-68 | whatever page a lookup returns after loading is within 4000 characters and comes from a valid listed file of that name |
| Wiki.OwnLocaleFirst | minebot/src/helper/wiki.py:93-95 | a locale holding the page answers from itself, whatever the guild locale |
| Wiki.ReadLocale | minebot/src/helper/wiki.py:54-65 | the per-file loop builds exactly ValidFiles |
| Wiki.WikiHelper.constructor | minebot/src/helper/wiki.py:17-22 | the table starts empty and no guild locale is cached |
| Wiki.WikiHelper.LoadWikiData | minebot/src/helper/wiki.py:34-71 | disabled leaves the table as it was; enabled replaces it with exactly the loaded table |
| Wiki.WikiHelper.GuildLocale | minebot/src/helper/wiki.py:24-32 | the first guild locale fetched is cached and returned from then on |
| Wiki.WikiHelper.GetWikiFiles | minebot/src/helper/wiki.py:73-88 | answers WikiFiles with the cached or fetched guild locale, changes no page, and fetches nothing when the requested locale has files |
| Wiki.WikiHelper.GetWikiFileContent | minebot/src/helper/wiki.py:90-105 | answers WikiContent with the cached or fetched guild locale, changes no page, and fetches nothing when the requested locale has the page |

## Left out

- CommandEvents.ApplyTimeout: the reason is logged but the member edits do not carry it (minebot/src/websocket/actions/event/command_executed.py:167 and 203, and each refresh edit at lines 102-105 and 128-131), because `EditCall` is shared with the timer and recovery bodies, which pass the no-reason text.
- CommandEvents.UnbanByName: the reason is logged but the unban call does not carry it (minebot/src/websocket/actions/event/command_executed.py:331-337), because `UnbanCall` is shared with the timer and recovery bodies.
- CommandEvents.SimpleAction: the untimeout edit does not carry the reason (minebot/src/websocket/actions/event/command_executed.py:370-377); the kick and ban calls do.
- CommandEvents.Tempban: the timer's unban uses the no-reason text (minebot/src/websocket/actions/event/command_executed.py:274-277); `UnbanCall` carries no reason.
- Scheduling.RunJob: the no-reason text passed to the expiry unbans and edits is not carried by the calls (minebot/src/helper/punishment.py:159-178, 310-333).
- The `source` column of a punishment log is not modelled. The command path logs timeouts as coming from Discord (minebot/src/websocket/actions/event/command_executed.py:194) and every other command as coming from Minecraft.
- Threads, locks, asyncio scheduling and the WebSocket transport are not modelled. Each coroutine is one sequential step over explicit state. The timed containers' worker thread is the explicit `Sweep`.
- Wall-clock and monotonic time are integer seconds passed in as `now`. Timezone handling (`_ensure_timezone_aware`) is not modelled, and neither are sub-second datetimes.
- Discord, database, HTTP and file I/O are effects with an outcome parameter, or their results are inputs. The texts of error and log messages are not modelled.
- Python dict and set iteration order is not modelled. Where order matters it is an input sequence, for example the key order of a timed-container rebuild.
- Scheduling: the value-level `World` in `Scheduling`, `Recovery` and `CommandEvents` rebuilds the task registry and the store as values rather than updating them in place. The class versions `GlobalState.TasksState` and `TempActions.TempActionStore` are proved against the same functions.
- PluginSocket.Jitter: `base * 0.2 * random` is computed over the reals and then floored. Java `double` rounding is not modelled, and the random number is an input.
- Java exceptions are modelled as `None`/`Err` results. A syntax string made only of spaces yields `None`.
- CommandParser: the positional getters are not modelled, namely `getParameter(int)`, `hasParameter(int)`, `getCommandUsage` and `getParameter` with a default. They only index the parameter list.
- CommandParser.CompileMapRoundTrip: requires every declared parameter to be present in the map. The source compiles a partial map into text that no longer parses positionally.
- Reflection and Gson decoding are not modelled. The dispatch table and the decoded messages are inputs.
- The TLS context setup in `Client.java` (lines 75-108) is not modelled.
- `get_reward_items` (minebot/src/helper/command.py:269-286) is not modelled: it has no callers and returns nothing.
- The loader getters of the command helper are not modelled.
- Pydantic's choice of union member and its re-validation at the end of `create_or_update` are inputs or not modelled.
- `getattr` on Python string leaves is not modelled.
- SettingsLookup.SettingsGet: the `lru_cache` on `Settings.get` (minebot/src/settings/json_wrapper.py:153) is not modelled. In the source, once a key and default have answered, later calls keep that answer even after the settings are reloaded; the model reads the current settings on every call.
- SettingsLookup.Localization.Get: the `lru_cache` on `Localization.get` (minebot/src/settings/json_wrapper.py:409) is not modelled. In the source the first answer for a key, locale and default is kept: a call without a locale keeps the guild locale it first resolved, including the EN_US fallback taken when the guild locale could not be fetched (lines 404-406), and answers do not change after a reload. The model resolves the locale and reads the table on every call.
- Database exceptions in `add_rewards` are not modelled.
- `_get_guild_locale` is an input of the wiki helper. Wiki autocomplete is not modelled.
- The hikari permission table is an input.
- The bot-activity URL regular expression is an input boolean.
- Case folding, whitespace and digit classes are ASCII only. Python's Unicode tables are not modelled.
- ConfigSchemas.ValidateEmbed: the `url`, `color`, `timestamp`, `image` and `thumbnail` fields and the footer and author links (`HttpUrl`, `Color`, `datetime`) are not modelled, so an embed refused only because one of them does not parse is accepted by the model.
- Not modelled: `TicketTranscription` and the remaining classes of minebot/src/model/schemas.py from line 466 on, the ticket transcript and upload, and `bool` accepted as `int` in the role validator.
- `_get_player_websocket_response` waits on the projections; it is modelled as a lookup in a snapshot of them. `can_moderate` is not modelled.
- The `staff_id` filter in the temporary-action queries is not modelled, because the table has no such column.
- `format_time_remaining` is not modelled separately; it is `from_timedelta` with its defaults: at most 2 parts, seconds included, joined by spaces.
- TimeUnits.FromTimedelta: requires every unit to have a singular and a plural form. The source raises `IndexError` otherwise.
- CommandParser.CompileList: uses the corrected quoting, which also escapes backslashes, not the source's (Findings, `BackslashLostAsWritten`).
- CommandParser.CompileMap: uses the corrected quoting, which also escapes backslashes, not the source's (Findings, `BackslashLostAsWritten`).
- CommandParser.CompileCommandList: uses the corrected quoting, which also escapes backslashes, not the source's (Findings, `BackslashLostAsWritten`).
- CommandParser.CompileCommandMap: uses the corrected quoting, which also escapes backslashes, not the source's (Findings, `BackslashLostAsWritten`).
- CommandParser.AppendAll: uses the corrected quoting, which also escapes backslashes, not the source's (Findings, `BackslashLostAsWritten`).
- CommandParser.AppendPresent: uses the corrected quoting, which also escapes backslashes, not the source's (Findings, `BackslashLostAsWritten`).
- CommandParser.CompileListRoundTrip: holds for the corrected quoting only; as written, a value holding a backslash does not come back (`BackslashLostAsWritten`).
- CommandParser.CompileMapRoundTrip: holds for the corrected quoting only; as written, a value holding a backslash does not come back (`BackslashLostAsWritten`).
- Timed.RebuildHeap: computes the corrected rebuild, which pushes every stored key at its own deadline; as written, a key with an extended deadline is dropped from the heap (Findings, `RebuildAsWrittenLosesKey`).
- Timed.TimedSet.Sweep: rebuilds with the corrected `RebuildHeap`, which keeps extended deadlines, not the source's (Findings, `RebuildAsWrittenLosesKey`).
- Timed.TimedSet.Remove: rebuilds with the corrected `RebuildHeap`, which keeps extended deadlines, not the source's (Findings, `RebuildAsWrittenLosesKey`).
- Timed.RemoveAndRebuild: rebuilds with the corrected `RebuildHeap`, which keeps extended deadlines, not the source's (Findings, `RebuildAsWrittenLosesKey`).
- Timed.TimedSet.Extend: rebuilds with the corrected `RebuildHeap`, which keeps extended deadlines, not the source's (Findings, `RebuildAsWrittenLosesKey`).
- Timed.TimedDict.Sweep: rebuilds with the corrected `RebuildHeap`, which keeps extended deadlines, not the source's (Findings, `RebuildAsWrittenLosesKey`).
- Timed.TimedDict.Extend: rebuilds with the corrected `RebuildHeap`, which keeps extended deadlines, not the source's (Findings, `RebuildAsWrittenLosesKey`).
- Timed.RefreshAndPush: rebuilds with the corrected `RebuildHeap`, which keeps extended deadlines, not the source's (Findings, `RebuildAsWrittenLosesKey`).
- Recovery.RecoverTimeout: computes the corrected recovery, which re-arms a timeout left longer than 28 days; as written, no follow-up task is registered (Findings, `LongTimeoutLapsesAsWritten`; `RecoverTimeoutWith` with `rearm := false` is the source as written).
- Recovery.RecoverOne: recovers timeouts with the corrected `RecoverTimeout`, which re-arms a long timeout, not the source's (Findings, `LongTimeoutLapsesAsWritten`).
- Recovery.RecoverAll: recovers timeouts with the corrected `RecoverTimeout`, which re-arms a long timeout, not the source's (Findings, `LongTimeoutLapsesAsWritten`).
- Recovery.SchedulePunishmentTasks: recovers timeouts with the corrected `RecoverTimeout`, which re-arms a long timeout, not the source's (Findings, `LongTimeoutLapsesAsWritten`).
- MinecraftHelpers.MapRewards: computes the corrected mapping, in which a single configured command stays one command; as written, it is split into characters (Findings, `SingleCommandSplitAsWritten`).
- MinecraftHelpers.SingleCommandKept: states the corrected `MapRewards`, in which a single command stays one command, not the source's (Findings, `SingleCommandSplitAsWritten`).
- MinecraftHelpers.AddRewards: states the corrected `MapRewards`, in which a single command stays one command, not the source's (Findings, `SingleCommandSplitAsWritten`).
- Timed.TimedSet.Extend: the heap postcondition is stated only when the stale count stays at most 1000. Otherwise a rebuild follows, and its result is stated by `RebuildHeap`.
- Timed.TimedDict.Extend: the same as `TimedSet.Extend`.
- The iteration and text helpers of the timed containers are not modelled: `keys`, `values`, `items`, `__iter__`, `__str__` and `shutdown`.
- In lazy mode, a stale heap entry that pops after `timestamp + T` can remove an extended key early. A second `extend` with a larger extra does not move an earlier pending extension. Both follow from the source and are kept; they are not claimed as findings.

## Findings

| source | as written | input that shows it | evidently intended | confidence | as-written member | corrected member |
|---|---|---|---|---|---|---|
| minebot/src/data_types/timed.py:189-193 | The rebuild from scratch pushes `timestamp + T` only for keys whose `timestamp + T > now`. This drops a key whose deadline was moved by `extend`. | Key `a` stored at 5 with T = 10 and extended, so its only pending entry is due at 115. Rebuilt from scratch at 20, `a` gets no heap entry and is never removed. | Every stored key keeps a heap entry at its deadline, including any extension | not executed | Timed.RebuildAsWrittenLosesKey | Timed.FreshEntries |
| minebridge/minebridge-core/src/main/java/org/mineacademy/minebridge/core/utils/CommandParser.java:286-292 | `compileCommand` quotes values with spaces and escapes `"`, but does not escape `\`. The tokenizer (lines 111-125) treats `\` as an escape. | The value `a\b` compiles to `a\b`, which tokenizes back to `ab` | Compiled text tokenizes back to the original values | not executed | CommandParser.BackslashLostAsWritten | CommandParser.Quote |
| minebot/src/helper/punishment.py:236-307 | On recovery, a timeout with more than 28 days left is re-applied for 28 days, but no follow-up task is registered. Recovery runs once. | A timeout expiring 3 × 2,419,200 s after recovery ends at 2,419,200 s | The recovered timeout lasts until its stored expiry, as with a newly issued one | not executed | Recovery.LongTimeoutLapsesAsWritten | Recovery.RefreshOnRecovery |
| minebot/src/helper/minecraft.py:463-476 | A per-server reward that is a single string is iterated as a sequence, so it is split into characters | Server reward `"give x"` becomes the commands `g`, `i`, `v`, … | A single string is one command | not executed | MinecraftHelpers.SingleCommandSplitAsWritten | MinecraftHelpers.MapRewards |
