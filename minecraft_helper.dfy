// The bot's calls into the Minecraft side: resolving which player is meant,
// the availability gate, the cache-then-poll reads of the player
// projections, message and command requests, and the reward hand-out.
// A request sent to the plugins is a returned value; the projection caches
// are snapshots taken when the call starts and after each wait for a reply.
module MinecraftHelpers {
  import opened Common
  import opened Users
  import opened MessageTypes
  import opened WireSchemas

  /** A request sent over the bridge. */
  datatype Request =
    | StatusCheck(username: Option<string>, uuid: Option<string>)
    | ServerCheck(username: Option<string>, uuid: Option<string>)
    | PlayerMessage(messageType: MessageType, message: string, username: Option<string>, uuid: Option<string>)
    | GlobalMessage(messageType: MessageType, message: string)
    | ServerMessage(server: string, messageType: MessageType, message: string)
    | Dispatch(server: string, commands: seq<string>)

  /** Who a call is about: a Discord user, a Minecraft username or a uuid. */
  datatype Target = Target(user: Option<int>, username: Option<string>, uuid: Option<string>)

  /** The identifier used for the projections, and whether it came from the user table. */
  datatype Resolved = Resolved(identifier: string, fromDb: bool)

  // ---------------------------------------------------------------------
  // Identifier resolution

  /** `_resolve_identifier`: a Discord user excludes a username or uuid and
      is looked up for its stored uuid (empty when there is none); without a
      user exactly one of username and uuid must be given. */
  function ResolveIdentifier(t: Target, users: map<int, User>): (r: Result<Resolved>)
    ensures r.Err? <==> (t.user.Some? && (Truthy(t.username) || Truthy(t.uuid)))
                        || (t.user.None? && t.username.None? == t.uuid.None?)
    ensures t.user.Some? && r.Ok? ==>
              (r.value.fromDb <==> t.user.value in users && Truthy(users[t.user.value].uuid))
              && (r.value.fromDb ==> r.value.identifier == users[t.user.value].uuid.value)
              && (!r.value.fromDb ==> r.value.identifier == "")
    ensures t.user.None? && r.Ok? ==>
              !r.value.fromDb
              && r.value.identifier == (if t.username.Some? then t.username.value else t.uuid.value)
  {
    if t.user.Some? then
      if Truthy(t.username) || Truthy(t.uuid) then Err("When 'user' is provided, 'username' and 'uuid' must be None")
      else if t.user.value !in users || !Truthy(users[t.user.value].uuid) then Ok(Resolved("", false))
      else Ok(Resolved(users[t.user.value].uuid.value, true))
    else if t.username.None? == t.uuid.None? then Err("Exactly one of 'username' or 'uuid' must be provided")
    else if Truthy(t.username) then Ok(Resolved(t.username.value, false))
    else if Truthy(t.uuid) then Ok(Resolved(t.uuid.value, false))
    else Ok(Resolved("", false))
  }

  /** The username and uuid sent along with a request: the stored uuid alone
      when it came from the table, else what the caller gave. */
  function QueryUsername(t: Target, r: Resolved): Option<string>
  {
    if r.fromDb then None else t.username
  }

  function QueryUuid(t: Target, r: Resolved): Option<string>
  {
    if r.fromDb then Some(r.identifier) else t.uuid
  }

  /** A request always names the player it resolved to. */
  lemma QueryNamesIdentifier(t: Target, users: map<int, User>)
    requires ResolveIdentifier(t, users).Ok? && ResolveIdentifier(t, users).value.identifier != ""
    ensures var r := ResolveIdentifier(t, users).value;
            QueryUsername(t, r) == Some(r.identifier) || QueryUuid(t, r) == Some(r.identifier)
  {
  }

  // ---------------------------------------------------------------------
  // Availability and the cache-then-poll reads

  /** `check_servers_available`. */
  predicate ServersAvailable(servers: seq<string>)
  {
    |servers| > 0
  }

  /** The two projections a read consults: online players, and player to server. */
  datatype Caches = Caches(online: set<string>, serverOf: map<string, string>)

  /** A boolean answer and the requests sent to get it. */
  datatype Poll = Poll(answer: bool, sent: seq<Request>)

  /** A request about a player passes its schema's player fields. */
  predicate PlayerFieldsValid(q: Request)
  {
    (q.StatusCheck? || q.ServerCheck? || q.PlayerMessage?) ==> ValidatePlayer(q.username, q.uuid).Ok?
  }

  predicate AllPlayerFieldsValid(sent: seq<Request>)
  {
    forall i :: 0 <= i < |sent| ==> PlayerFieldsValid(sent[i])
  }

  /**
   * The status read once the identifier is known: a cache hit answers at
   * once; otherwise the status request is built, which fails when the
   * username is over 16 or the uuid over 36 characters, and after the wait
   * the cache is read again.
   */
  function StatusRead(id: string, username: Option<string>, uuid: Option<string>, c0: Caches, c1: Caches): (r: Result<Poll>)
    ensures id in c0.online ==> r == Ok(Poll(true, []))
    ensures id !in c0.online ==> (r.Err? <==> ValidatePlayer(username, uuid).Err?)
    ensures id !in c0.online && r.Ok? ==> r.value == Poll(id in c1.online, [StatusCheck(username, uuid)])
    ensures r.Ok? ==> AllPlayerFieldsValid(r.value.sent)
  {
    if id in c0.online then Ok(Poll(true, []))
    else
      match ValidatePlayer(username, uuid)
      case Err(e) => Err(e)
      case Ok(_) => Ok(Poll(id in c1.online, [StatusCheck(username, uuid)]))
  }

  /** The player resolves to an identifier, but the names a request about
      it carries break the schema's length limits. */
  predicate NamesRefused(t: Target, users: map<int, User>)
  {
    match ResolveIdentifier(t, users)
    case Err(_) => false
    case Ok(res) => res.identifier != "" && ValidatePlayer(QueryUsername(t, res), QueryUuid(t, res)).Err?
  }

  /** The status request a player lookup needs is refused: the resolution
      fails, or the player is not cached online and its names are refused. */
  predicate StatusRefused(t: Target, users: map<int, User>, c0: Caches)
  {
    ResolveIdentifier(t, users).Err?
    || (NamesRefused(t, users) && ResolveIdentifier(t, users).value.identifier !in c0.online)
  }

  /** `fetch_player_status`: False without servers or without an identifier. */
  function FetchPlayerStatus(servers: seq<string>, t: Target, users: map<int, User>, c0: Caches, c1: Caches): (r: Result<Poll>)
    ensures !ServersAvailable(servers) ==> r == Ok(Poll(false, []))
    ensures ServersAvailable(servers) ==> (r.Err? <==> StatusRefused(t, users, c0))
    ensures r.Ok? && r.value.answer ==> ServersAvailable(servers)
    ensures r.Ok? && ServersAvailable(servers) ==>
              (r.value.answer <==> var id := ResolveIdentifier(t, users).value.identifier;
                                   id != "" && (id in c0.online || id in c1.online))
    ensures r.Ok? && r.value.sent != [] ==> ResolveIdentifier(t, users).value.identifier !in c0.online
    ensures r.Ok? ==> AllPlayerFieldsValid(r.value.sent)
  {
    if !ServersAvailable(servers) then Ok(Poll(false, []))
    else
      match ResolveIdentifier(t, users)
      case Err(e) => Err(e)
      case Ok(res) =>
        if res.identifier == "" then Ok(Poll(false, []))
        else StatusRead(res.identifier, QueryUsername(t, res), QueryUuid(t, res), c0, c1)
  }

  /** The names a lookup sends always include one of the two, so only the
      length limits can refuse a status request. */
  lemma OnlyLengthsRefuse(t: Target, users: map<int, User>)
    requires ResolveIdentifier(t, users).Ok? && ResolveIdentifier(t, users).value.identifier != ""
    ensures var res := ResolveIdentifier(t, users).value;
            ValidatePlayer(QueryUsername(t, res), QueryUuid(t, res)).Err?
            <==> !WithinLimit(QueryUsername(t, res), MaxUsername) || !WithinLimit(QueryUuid(t, res), MaxUuid)
  {
    QueryNamesIdentifier(t, users);
  }

  /** A username longer than 16 characters that is not cached online makes
      the status lookup fail instead of answering False. */
  lemma LongUsernameRefused(servers: seq<string>, username: string, users: map<int, User>, c0: Caches, c1: Caches)
    requires ServersAvailable(servers) && |username| > MaxUsername && username !in c0.online
    ensures FetchPlayerStatus(servers, Target(None, Some(username), None), users, c0, c1).Err?
  {
    var t := Target(None, Some(username), None);
    assert ResolveIdentifier(t, users) == Ok(Resolved(username, false));
  }

  /** A uuid and the requests sent to get it. */
  datatype UuidPoll = UuidPoll(uuid: Option<string>, sent: seq<Request>)

  /**
   * `fetch_player_uuid`: the player's status is fetched by username first;
   * only an online player's non-empty cached uuid is returned. `uuids` is
   * the uuid projection as read after the status fetch.
   */
  function FetchPlayerUuid(servers: seq<string>, username: string, users: map<int, User>,
                           c0: Caches, c1: Caches, uuids: map<string, string>): (r: Result<UuidPoll>)
    ensures r.Err? <==> ServersAvailable(servers) && username != "" && username !in c0.online
                        && |username| > MaxUsername
    ensures r.Ok? ==>
              (r.value.uuid.Some? <==> ServersAvailable(servers) && username != ""
                                       && (username in c0.online || username in c1.online)
                                       && username in uuids && uuids[username] != "")
    ensures r.Ok? && r.value.uuid.Some? ==> r.value.uuid.value == uuids[username]
    ensures r.Ok? ==> r.value.sent == [] || r.value.sent == [StatusCheck(Some(username), None)]
    ensures r.Ok? && r.value.sent != [] ==> ServersAvailable(servers) && username != "" && username !in c0.online
  {
    var t := Target(None, Some(username), None);
    assert ResolveIdentifier(t, users).Ok?;
    match FetchPlayerStatus(servers, t, users, c0, c1)
    case Err(e) => Err(e)
    case Ok(status) =>
      if status.answer && username in uuids && uuids[username] != "" then Ok(UuidPoll(Some(uuids[username]), status.sent))
      else Ok(UuidPoll(None, status.sent))
  }

  /** An online, cached player's uuid is returned without a request. */
  lemma CachedUuidNeedsNoRequest(servers: seq<string>, username: string, users: map<int, User>,
                                 c0: Caches, c1: Caches, uuids: map<string, string>)
    requires ServersAvailable(servers) && username != "" && username in c0.online
    requires username in uuids && uuids[username] != ""
    ensures FetchPlayerUuid(servers, username, users, c0, c1, uuids) == Ok(UuidPoll(Some(uuids[username]), []))
  {
  }

  /** A server name and the requests sent to get it. */
  datatype ServerPoll = ServerPoll(server: Option<string>, sent: seq<Request>)

  /** A non-empty cached server for the player. */
  function CachedServer(c: Caches, id: string): (r: Option<string>)
    ensures r.Some? <==> id in c.serverOf && c.serverOf[id] != ""
    ensures r.Some? ==> r.value == c.serverOf[id]
  {
    if id in c.serverOf && c.serverOf[id] != "" then Some(c.serverOf[id]) else None
  }

  /**
   * `fetch_player_server`: a cached server answers at once; otherwise the
   * player must be online (a status read), then the cache is read again; a
   * single known server is the answer; otherwise a server request is sent
   * and the cache read after the wait. `c0` is the cache at the call, `c1`
   * after the status wait and `c2` after the server wait. Building either
   * request checks the names' lengths.
   */
  function FetchPlayerServer(servers: seq<string>, t: Target, users: map<int, User>,
                             c0: Caches, c1: Caches, c2: Caches): (r: Result<ServerPoll>)
    ensures !ServersAvailable(servers) ==> r == Ok(ServerPoll(None, []))
    ensures ServersAvailable(servers) ==>
              (r.Err? <==> ResolveIdentifier(t, users).Err?
                           || (NamesRefused(t, users)
                               && var id := ResolveIdentifier(t, users).value.identifier;
                                  CachedServer(c0, id).None? && (id !in c0.online || |servers| != 1)))
    ensures r.Ok? && ServersAvailable(servers) && ResolveIdentifier(t, users).value.identifier != "" ==>
              var id := ResolveIdentifier(t, users).value.identifier;
              (CachedServer(c0, id).Some? ==> r.value == ServerPoll(CachedServer(c0, id), []))
              && (r.value.server.Some? && CachedServer(c0, id).None? ==> id in c0.online || id in c1.online)
    ensures r.Ok? ==> AllPlayerFieldsValid(r.value.sent)
  {
    if !ServersAvailable(servers) then Ok(ServerPoll(None, []))
    else
      match ResolveIdentifier(t, users)
      case Err(e) => Err(e)
      case Ok(res) =>
        var id := res.identifier;
        if id == "" then Ok(ServerPoll(None, []))
        else if CachedServer(c0, id).Some? then Ok(ServerPoll(CachedServer(c0, id), []))
        else
          match StatusRead(id, QueryUsername(t, res), QueryUuid(t, res), c0, c1)
          case Err(e) => Err(e)
          case Ok(status) =>
            if !status.answer then Ok(ServerPoll(None, status.sent))
            else
              var now := if status.sent == [] then c0 else c1;
              if CachedServer(now, id).Some? then Ok(ServerPoll(CachedServer(now, id), status.sent))
              else if |servers| == 1 then Ok(ServerPoll(Some(servers[0]), status.sent))
              else
                match ValidatePlayer(QueryUsername(t, res), QueryUuid(t, res))
                case Err(e) => Err(e)
                case Ok(_) =>
                  var sent := status.sent + [ServerCheck(QueryUsername(t, res), QueryUuid(t, res))];
                  Ok(ServerPoll(if id in c2.serverOf then Some(c2.serverOf[id]) else None, sent))
  }

  /** The single-server shortcut. Every authentication appends its server
      list followed by "all", so a list of one name is ["all"], and the
      shortcut then answers "all". */
  lemma SingleServerShortcut(advertised: seq<string>, t: Target, users: map<int, User>,
                             c0: Caches, c1: Caches, c2: Caches)
    requires |advertised + ["all"]| == 1
    requires ResolveIdentifier(t, users).Ok?
    requires var id := ResolveIdentifier(t, users).value.identifier;
             id != "" && CachedServer(c0, id).None? && id in c0.online
    ensures FetchPlayerServer(advertised + ["all"], t, users, c0, c1, c2) == Ok(ServerPoll(Some("all"), []))
  {
    assert advertised == [];
  }

  /** `send_player_message`: only to an online player, after the status
      read; building the message request checks the names again, which
      matters when the status came from the cache. */
  function SendPlayerMessage(servers: seq<string>, t: Target, users: map<int, User>, ty: MessageType,
                             message: string, c0: Caches, c1: Caches): (r: Result<Poll>)
    ensures !ServersAvailable(servers) ==> r == Ok(Poll(false, []))
    ensures ServersAvailable(servers) ==> (r.Err? <==> ResolveIdentifier(t, users).Err? || NamesRefused(t, users))
    ensures r.Ok? && r.value.answer ==>
              var res := ResolveIdentifier(t, users).value;
              FetchPlayerStatus(servers, t, users, c0, c1).value.answer
              && r.value.sent == FetchPlayerStatus(servers, t, users, c0, c1).value.sent
                                 + [PlayerMessage(ty, message, QueryUsername(t, res), QueryUuid(t, res))]
    ensures r.Ok? ==> FetchPlayerStatus(servers, t, users, c0, c1).Ok?
                      && (r.value.answer <==> FetchPlayerStatus(servers, t, users, c0, c1).value.answer)
    ensures r.Ok? && !r.value.answer ==> forall i :: 0 <= i < |r.value.sent| ==> r.value.sent[i].StatusCheck?
    ensures r.Ok? ==> AllPlayerFieldsValid(r.value.sent)
  {
    match FetchPlayerStatus(servers, t, users, c0, c1)
    case Err(e) => Err(e)
    case Ok(status) =>
      if !status.answer then Ok(Poll(false, status.sent))
      else
        var res := ResolveIdentifier(t, users).value;
        match ValidatePlayer(QueryUsername(t, res), QueryUuid(t, res))
        case Err(e) => Err(e)
        case Ok(_) => Ok(Poll(true, status.sent + [PlayerMessage(ty, message, QueryUsername(t, res), QueryUuid(t, res))]))
  }

  /** `send_global_message`: sent whenever a server is known. */
  function SendGlobalMessage(servers: seq<string>, ty: MessageType, message: string): (r: Poll)
    ensures r.answer <==> ServersAvailable(servers)
    ensures r.answer ==> r.sent == [GlobalMessage(ty, message)]
    ensures !r.answer ==> r.sent == []
  {
    if !ServersAvailable(servers) then Poll(false, []) else Poll(true, [GlobalMessage(ty, message)])
  }

  /**
   * `send_server_message`: a server missing from the list sends nothing and
   * answers False; building the request checks the name against the
   * built-in names and the authenticated plugins' lists, and raises when it
   * is in neither.
   */
  function SendServerMessage(servers: seq<string>, clients: seq<ClientEntry>, ty: MessageType, message: string,
                             server: string): (r: Result<Poll>)
    ensures r.Err? <==> server in servers && !ServerAccepted(clients, server)
    ensures r.Ok? ==> (r.value.answer <==> server in servers)
    ensures r.Ok? && r.value.answer ==> ServerAccepted(clients, server) && r.value.sent == [ServerMessage(server, ty, message)]
    ensures r.Ok? && !r.value.answer ==> r.value.sent == []
  {
    if !ServersAvailable(servers) then Ok(Poll(false, []))
    else if server !in servers then Ok(Poll(false, []))
    else if !ServerAccepted(clients, server) then Err("Server '" + server + "' is not authenticated")
    else Ok(Poll(true, [ServerMessage(server, ty, message)]))
  }

  /** `dispatch_command`: False without servers; a server missing from the
      list raises, and so does one the request schema refuses; else one
      dispatch with the commands as a list. */
  function DispatchCommand(servers: seq<string>, clients: seq<ClientEntry>, server: string, commands: CommandsArg): (r: Result<Poll>)
    ensures !ServersAvailable(servers) ==> r == Ok(Poll(false, []))
    ensures ServersAvailable(servers) ==> (r.Err? <==> server !in servers || !ServerAccepted(clients, server))
    ensures r.Ok? && ServersAvailable(servers) ==> r.value.answer
    ensures r.Ok? && r.value.answer ==>
              server in servers && ServerAccepted(clients, server) && r.value.sent == [Dispatch(server, NormalizeCommands(commands))]
  {
    if !ServersAvailable(servers) then Ok(Poll(false, []))
    else if server !in servers then Err("Server '" + server + "' not found in available servers")
    else if !ServerAccepted(clients, server) then Err("Server '" + server + "' is not authenticated")
    else Ok(Poll(true, [Dispatch(server, NormalizeCommands(commands))]))
  }

  /** With a server known, a server missing from the list is refused by both
      the message and the dispatch path, the first with False and the
      second with an error. */
  lemma UnknownServerRefused(servers: seq<string>, clients: seq<ClientEntry>, ty: MessageType, message: string,
                             server: string, commands: CommandsArg)
    requires ServersAvailable(servers) && server !in servers
    ensures SendServerMessage(servers, clients, ty, message, server) == Ok(Poll(false, []))
    ensures DispatchCommand(servers, clients, server, commands).Err?
  {
  }

  /** When every listed server is "all" or advertised by a plugin in the
      table, as authentication keeps it, a listed server is never refused
      by the request schema. */
  lemma ListedServerAccepted(servers: seq<string>, clients: seq<ClientEntry>, ty: MessageType, message: string,
                             server: string, commands: CommandsArg)
    requires forall s :: s in servers ==> s == "all" || Advertised(clients, s)
    requires server in servers
    ensures SendServerMessage(servers, clients, ty, message, server).Ok?
    ensures DispatchCommand(servers, clients, server, commands) == Ok(Poll(true, [Dispatch(server, NormalizeCommands(commands))]))
  {
    assert "all" in BuiltinServers;
  }

  // ---------------------------------------------------------------------
  // Reward mapping

  /** The configured reward: role ids (already a list) and per-server commands. */
  datatype RewardCfg = RewardCfg(role: Option<seq<int>>, item: Option<map<string, Items>>)

  /** The default commands for servers without their own: the "default" entry. */
  function DefaultItems(item: map<string, Items>): (r: seq<string>)
    ensures "default" in item ==> r == AsList(item["default"])
    ensures "default" !in item ==> r == []
  {
    if "default" in item then AsList(item["default"]) else []
  }

  /** Whether a configured server key receives commands. */
  predicate Rewarded(item: map<string, Items>, servers: seq<string>, k: string)
  {
    k in item && k != "default" && (k in servers || |DefaultItems(item)| > 0)
  }

  /** The commands a rewarded key receives, placeholders filled. */
  function RewardFor(item: map<string, Items>, servers: seq<string>, k: string, username: string, uuid: string): seq<string>
    requires k in item
  {
    if k in servers then ProcessItems(AsList(item[k]), username, uuid)
    else ProcessItems(DefaultItems(item), username, uuid)
  }

  /**
   * The per-server rewards of `add_rewards`: every key except "default"
   * that is a known server gets its own commands, every other key gets the
   * default commands when there are any. This is the corrected mapping: a
   * single command counts as a one-element list, where the source splits it
   * into characters (`MapRewardsAsWritten`).
   */
  function MapRewards(item: map<string, Items>, servers: seq<string>, username: string, uuid: string): (r: map<string, seq<string>>)
    ensures "default" !in r
    ensures forall k :: k in r <==> Rewarded(item, servers, k)
    ensures forall k :: k in r && k in servers ==> k in item && r[k] == ProcessItems(AsList(item[k]), username, uuid)
    ensures forall k :: k in r && k !in servers ==> r[k] == ProcessItems(DefaultItems(item), username, uuid)
  {
    map k | k in item && Rewarded(item, servers, k) :: RewardFor(item, servers, k, username, uuid)
  }

  /** A known server configured with one command gets exactly that command. */
  lemma SingleCommandKept(item: map<string, Items>, servers: seq<string>, k: string, s: string, username: string, uuid: string)
    requires k in item && k != "default" && k in servers && item[k] == OneItem(s)
    ensures k in MapRewards(item, servers, username, uuid)
    ensures MapRewards(item, servers, username, uuid)[k] == [Substitute(s, username, uuid)]
  {
  }

  /** The mapping as the source writes it: a per-server value is handed to
      the placeholder step unwrapped, so a single command is taken one
      character at a time, and a single default command is checked for
      truth as a string. */
  function CharItems(s: string): (r: seq<string>)
    ensures |r| == |s| && forall i :: 0 <= i < |s| ==> r[i] == [s[i]]
  {
    seq(|s|, i requires 0 <= i < |s| => [s[i]])
  }

  function ProcessValueAsWritten(v: Items, username: string, uuid: string): seq<string>
  {
    match v
    case OneItem(s) => ProcessItems(CharItems(s), username, uuid)
    case ItemList(xs) => ProcessItems(xs, username, uuid)
  }

  predicate ValueTruthy(v: Items)
  {
    match v
    case OneItem(s) => |s| > 0
    case ItemList(xs) => |xs| > 0
  }

  function MapRewardsAsWritten(item: map<string, Items>, servers: seq<string>, username: string, uuid: string): map<string, seq<string>>
  {
    var default := if "default" in item then item["default"] else ItemList([]);
    map k | k in item && k != "default" && (k in servers || ValueTruthy(default)) ::
      if k in servers then ProcessValueAsWritten(item[k], username, uuid)
      else ProcessValueAsWritten(default, username, uuid)
  }

  /** A placeholder never fits inside one character. */
  lemma OneCharPlain(c: char, username: string, uuid: string)
    ensures Substitute([c], username, uuid) == [c]
  {
    assert !HasSubstring([c], UsernamePlaceholder);
    assert !HasSubstring([c], UuidPlaceholder);
    SubstituteKeepsPlain([c], username, uuid);
  }

  /** As written, a known server configured with one command of n >= 2
      characters receives n one-character commands instead of that command. */
  lemma SingleCommandSplitAsWritten(item: map<string, Items>, servers: seq<string>, k: string, s: string,
                                    username: string, uuid: string)
    requires k in item && k != "default" && k in servers && item[k] == OneItem(s) && |s| >= 2
    ensures k in MapRewardsAsWritten(item, servers, username, uuid)
    ensures var got := MapRewardsAsWritten(item, servers, username, uuid)[k];
            |got| == |s| && forall i :: 0 <= i < |s| ==> got[i] == [s[i]]
    ensures MapRewardsAsWritten(item, servers, username, uuid)[k] != MapRewards(item, servers, username, uuid)[k]
  {
    var got := MapRewardsAsWritten(item, servers, username, uuid)[k];
    assert got == ProcessItems(CharItems(s), username, uuid);
    forall i | 0 <= i < |s| ensures got[i] == [s[i]] {
      OneCharPlain(s[i], username, uuid);
    }
  }

  /** `add_rewards`' mapping loop over the configured keys, in the
      dictionary's order. */
  method MapRewardsLoop(item: map<string, Items>, order: seq<string>, servers: seq<string>,
                        username: string, uuid: string) returns (final: map<string, seq<string>>)
    requires forall k :: k in item <==> k in order
    ensures final == MapRewards(item, servers, username, uuid)
  {
    var default: seq<string> := if "default" in item then AsList(item["default"]) else [];
    final := map[];
    var i := 0;
    while i < |order|
      invariant 0 <= i <= |order|
      invariant forall k :: k in final <==> k in order[..i] && Rewarded(item, servers, k)
      invariant forall k :: k in final ==> final[k] == RewardFor(item, servers, k, username, uuid)
    {
      var k := order[i];
      TakeSnoc(order, i);
      if k != "default" {
        if k in servers {
          final := final[k := ProcessItems(AsList(item[k]), username, uuid)];
        } else if |default| > 0 {
          final := final[k := ProcessItems(default, username, uuid)];
        }
      }
      i := i + 1;
    }
    assert order[..i] == order;
  }

  /** The inventory additions in the order the mapping was built: every
      server with a non-empty command list. */
  function AddedInOrder(order: seq<string>, final: map<string, seq<string>>): (r: seq<(string, seq<string>)>)
    ensures forall j :: 0 <= j < |r| ==> r[j].0 in final && r[j].0 in order && r[j].1 == final[r[j].0] && |r[j].1| > 0
    ensures forall k :: k in order && k in final && |final[k]| > 0 ==> exists j :: 0 <= j < |r| && r[j].0 == k
  {
    if order == [] then []
    else
      var init := order[..|order| - 1];
      var k := order[|order| - 1];
      var r0 := AddedInOrder(init, final);
      assert forall j :: 0 <= j < |init| ==> init[j] == order[j];
      if k in final && |final[k]| > 0 then
        var r := r0 + [(k, final[k])];
        assert r[|r0|].0 == k;
        assert forall j :: 0 <= j < |r0| ==> r[j] == r0[j];
        r
      else r0
  }

  /** The outcome of `add_rewards`: whether anything was given, the roles
      granted and the inventory additions made. */
  datatype Given = Given(success: bool, roles: seq<int>, added: seq<(string, seq<string>)>)

  /** `add_rewards`. Roles need the guild fetch to succeed and are granted
      one by one; items need a linked account with both username and uuid. */
  method AddRewards(rewards: Option<RewardCfg>, guildFetched: bool, roleOk: set<int>, user: Option<User>,
                    servers: seq<string>, order: seq<string>) returns (r: Given)
    requires rewards.Some? && rewards.value.item.Some? ==> forall k :: k in rewards.value.item.value <==> k in order
    ensures rewards.None? ==> r == Given(false, [], [])
    ensures forall j :: 0 <= j < |r.roles| ==> r.roles[j] in roleOk && guildFetched
                                               && rewards.value.role.Some? && r.roles[j] in rewards.value.role.value
    ensures rewards.Some? && guildFetched && rewards.value.role.Some? ==>
              forall x :: x in rewards.value.role.value && x in roleOk ==> x in r.roles
    ensures |r.added| > 0 ==> rewards.Some? && rewards.value.item.Some? && user.Some?
                              && Truthy(user.value.username) && Truthy(user.value.uuid)
    ensures rewards.Some? && rewards.value.item.Some? && user.Some? && Truthy(user.value.username) && Truthy(user.value.uuid) ==>
              r.added == AddedInOrder(order, MapRewards(rewards.value.item.value, servers,
                                                        user.value.username.value, user.value.uuid.value))
    ensures r.success <==> |r.roles| > 0 || |r.added| > 0
  {
    if rewards.None? {
      return Given(false, [], []);
    }
    var roles: seq<int> := [];
    if rewards.value.role.Some? && |rewards.value.role.value| > 0 && guildFetched {
      var rs := rewards.value.role.value;
      var i := 0;
      while i < |rs|
        invariant 0 <= i <= |rs|
        invariant forall j :: 0 <= j < |roles| ==> roles[j] in roleOk && roles[j] in rs
        invariant forall x :: x in rs[..i] && x in roleOk ==> x in roles
      {
        TakeSnoc(rs, i);
        if rs[i] in roleOk {
          roles := roles + [rs[i]];
        }
        i := i + 1;
      }
      assert rs[..i] == rs;
    }
    var added: seq<(string, seq<string>)> := [];
    if rewards.value.item.Some? && |rewards.value.item.value| > 0 && user.Some?
       && Truthy(user.value.username) && Truthy(user.value.uuid) {
      var final := MapRewardsLoop(rewards.value.item.value, order, servers,
                                  user.value.username.value, user.value.uuid.value);
      added := AddedInOrder(order, final);
    } else if rewards.value.item.Some? && |rewards.value.item.value| == 0 && order != [] {
      assert order[0] in rewards.value.item.value;
    }
    return Given(|roles| > 0 || |added| > 0, roles, added);
  }

  // ---------------------------------------------------------------------
  // Reward hand-out

  /** The outcome of `give_rewards`: whether commands were dispatched, the
      requests sent, and the write of the cleared inventory. */
  datatype Handout = Handout(given: bool, sent: seq<Request>, write: Option<Upsert>)

  /** The stored commands for a server, when there are any. */
  function PendingFor(u: User, server: string): (r: seq<string>)
  {
    if u.inventory.Some? && server in u.inventory.value then u.inventory.value[server] else []
  }

  /** The user `give_rewards` is asked about, when exactly one of user and id is given. */
  function Holder(user: Option<int>, userId: Option<int>): (r: int)
    requires user.None? != userId.None?
    ensures user.Some? ==> r == user.value
    ensures userId.Some? ==> r == userId.value
  {
    if user.Some? then user.value else userId.value
  }

  /** Exactly one of user and id is given, and that user is stored with a non-empty inventory. */
  predicate HasRewards(user: Option<int>, userId: Option<int>, users: map<int, User>)
  {
    user.None? != userId.None? && Holder(user, userId) in users && FilledInventory(users[Holder(user, userId)].inventory)
  }

  /** The server lookup `give_rewards` makes, by the stored uuid alone. */
  function HolderServer(user: Option<int>, userId: Option<int>, users: map<int, User>, servers: seq<string>,
                        c0: Caches, c1: Caches, c2: Caches): Result<ServerPoll>
    requires HasRewards(user, userId, users)
  {
    FetchPlayerServer(servers, Target(None, None, users[Holder(user, userId)].uuid), users, c0, c1, c2)
  }

  /**
   * `give_rewards`: exactly one of user and user id; the user must have a
   * non-empty inventory; the server comes from `fetch_player_server` by the
   * stored uuid (asking by no identifier at all is an error); the commands
   * for that server are dispatched, then that server's list is emptied and
   * the record written back. A dispatch that raises is caught and gives False.
   */
  function GiveRewards(user: Option<int>, userId: Option<int>, users: map<int, User>, servers: seq<string>,
                       clients: seq<ClientEntry>, c0: Caches, c1: Caches, c2: Caches): (r: Result<Handout>)
    ensures user.None? == userId.None? ==> r == Ok(Handout(false, [], None))
    ensures r.Err? <==> HasRewards(user, userId, users) && HolderServer(user, userId, users, servers, c0, c1, c2).Err?
    ensures r.Ok? ==>
              (r.value.given <==>
                 HasRewards(user, userId, users)
                 && var u := users[Holder(user, userId)];
                 var poll := HolderServer(user, userId, users, servers, c0, c1, c2).value;
                 poll.server.Some? && poll.server.value != "" && |PendingFor(u, poll.server.value)| > 0
                 && DispatchCommand(servers, clients, poll.server.value, CommandList(PendingFor(u, poll.server.value))).Ok?
                 && DispatchCommand(servers, clients, poll.server.value, CommandList(PendingFor(u, poll.server.value))).value.answer)
    ensures r.Ok? && r.value.given ==>
              var u := users[Holder(user, userId)];
              var poll := HolderServer(user, userId, users, servers, c0, c1, c2).value;
              r.value.sent == poll.sent + [Dispatch(poll.server.value, PendingFor(u, poll.server.value))]
              && r.value.write == Some(CreateOrUpdate(users, u.(inventory := Some(u.inventory.value[poll.server.value := []])),
                                                      true, servers))
    ensures r.Ok? && !r.value.given ==> r.value.write.None?
  {
    if !HasRewards(user, userId, users) then Ok(Handout(false, [], None))
    else
      var u := users[Holder(user, userId)];
      match HolderServer(user, userId, users, servers, c0, c1, c2)
      case Err(e) => Err(e)
      case Ok(poll) =>
        if poll.server.None? || poll.server.value == "" then Ok(Handout(false, poll.sent, None))
        else
          var server := poll.server.value;
          var pending := PendingFor(u, server);
          if |pending| == 0 then Ok(Handout(false, poll.sent, None))
          else
            match DispatchCommand(servers, clients, server, CommandList(pending))
            case Err(_) => Ok(Handout(false, poll.sent, None))
            case Ok(d) =>
              if !d.answer then Ok(Handout(false, poll.sent + d.sent, None))
              else
                var cleared := u.(inventory := Some(u.inventory.value[server := []]));
                Ok(Handout(true, poll.sent + d.sent, Some(CreateOrUpdate(users, cleared, true, servers))))
  }

  /** After a hand-out the record keeps its account and the server's list
      is empty while every other server keeps its commands. */
  lemma HandoutClearsServer(user: Option<int>, userId: Option<int>, users: map<int, User>, servers: seq<string>,
                            clients: seq<ClientEntry>, c0: Caches, c1: Caches, c2: Caches)
    requires GiveRewards(user, userId, users, servers, clients, c0, c1, c2).Ok?
    requires GiveRewards(user, userId, users, servers, clients, c0, c1, c2).value.given
    requires GiveRewards(user, userId, users, servers, clients, c0, c1, c2).value.write.value.Updated?
    requires forall k :: k in users ==> users[k].id == k
    ensures var u := users[Holder(user, userId)];
            var server := HolderServer(user, userId, users, servers, c0, c1, c2).value.server.value;
            var w := GiveRewards(user, userId, users, servers, clients, c0, c1, c2).value.write.value.user;
            w.username == u.username && w.uuid == u.uuid && w.inventory.Some?
            && w.inventory.value == u.inventory.value[server := []]
  {
    var u := users[Holder(user, userId)];
    var server := HolderServer(user, userId, users, servers, c0, c1, c2).value.server.value;
    var cleared := u.(inventory := Some(u.inventory.value[server := []]));
    assert FilledInventory(cleared.inventory) by {
      assert server in cleared.inventory.value;
    }
  }

  /** A user with rewards but no stored uuid cannot be asked for: the
      server lookup fails with an error. */
  lemma NoUuidIsError(userId: int, users: map<int, User>, servers: seq<string>, clients: seq<ClientEntry>,
                      c0: Caches, c1: Caches, c2: Caches)
    requires userId in users && FilledInventory(users[userId].inventory) && users[userId].uuid.None?
    requires ServersAvailable(servers)
    ensures GiveRewards(None, Some(userId), users, servers, clients, c0, c1, c2).Err?
  {
  }
}
