// Validation of the JSON messages exchanged with the plugins, and the table
// of authenticated plugin connections that server-name validation reads.
module WireSchemas {
  import opened Common
  import opened MessageTypes

  /** The payload of an `authenticate` message. */
  datatype AuthData = AuthData(password: string, serverList: seq<string>)

  /** One authenticated connection, in insertion order of the table. */
  datatype ClientEntry = ClientEntry(id: int, auth: AuthData)

  predicate HasClient(cs: seq<ClientEntry>, id: int)
  {
    exists i :: 0 <= i < |cs| && cs[i].id == id
  }

  /** Dictionary assignment: an existing id keeps its position, a new id goes last. */
  function PutClient(cs: seq<ClientEntry>, id: int, a: AuthData): (r: seq<ClientEntry>)
    ensures HasClient(cs, id) ==> |r| == |cs|
    ensures !HasClient(cs, id) ==> r == cs + [ClientEntry(id, a)]
    ensures HasClient(cs, id) ==> forall i :: 0 <= i < |cs| ==> r[i] == (if cs[i].id == id then ClientEntry(id, a) else cs[i])
  {
    if HasClient(cs, id) then ReplaceClient(cs, id, a) else cs + [ClientEntry(id, a)]
  }

  function ReplaceClient(cs: seq<ClientEntry>, id: int, a: AuthData): (r: seq<ClientEntry>)
    ensures |r| == |cs|
    ensures forall i :: 0 <= i < |cs| ==> r[i] == (if cs[i].id == id then ClientEntry(id, a) else cs[i])
  {
    if |cs| == 0 then []
    else [if cs[0].id == id then ClientEntry(id, a) else cs[0]] + ReplaceClient(cs[1..], id, a)
  }

  /** Dictionary deletion. */
  function DelClient(cs: seq<ClientEntry>, id: int): (r: seq<ClientEntry>)
    ensures !HasClient(r, id)
    ensures forall e :: e in r <==> e in cs && e.id != id
  {
    if |cs| == 0 then []
    else if cs[0].id == id then DelClient(cs[1..], id)
    else [cs[0]] + DelClient(cs[1..], id)
  }

  lemma {:induction false} PutClientHas(cs: seq<ClientEntry>, id: int, a: AuthData, other: int)
    ensures HasClient(PutClient(cs, id, a), other) <==> other == id || HasClient(cs, other)
  {
    var r := PutClient(cs, id, a);
    if HasClient(r, other) && other != id {
      var i :| 0 <= i < |r| && r[i].id == other;
      if !HasClient(cs, id) {
        assert r[|cs|].id == id;
      }
      assert cs[i].id == other;
    }
    if other == id {
      if HasClient(cs, id) {
        var i :| 0 <= i < |cs| && cs[i].id == id;
        assert r[i].id == id;
      } else {
        assert r[|cs|].id == id;
      }
    }
    if HasClient(cs, other) && other != id {
      var i :| 0 <= i < |cs| && cs[i].id == other;
      assert r[i] == cs[i];
    }
  }

  /** The names a plugin may use without advertising them. */
  const BuiltinServers: seq<string> := ["all", "bungeecord", "velocity"]

  /** Some authenticated plugin advertised `name`. */
  predicate Advertised(cs: seq<ClientEntry>, name: string)
  {
    exists i :: 0 <= i < |cs| && name in cs[i].auth.serverList
  }

  /** What the `server` field check accepts. */
  predicate ServerAccepted(cs: seq<ClientEntry>, name: string)
  {
    name in BuiltinServers || Advertised(cs, name)
  }

  /** The `server` field check: built-in names, or a name some authenticated plugin advertised. */
  method ValidateServer(name: string, cs: seq<ClientEntry>) returns (r: Result<string>)
    ensures r.Ok? <==> name in BuiltinServers || Advertised(cs, name)
    ensures r.Ok? ==> r.value == name
    ensures r.Err? ==> r.error == "Server '" + name + "' is not authenticated"
  {
    if name in BuiltinServers {
      return Ok(name);
    }
    var i := 0;
    while i < |cs|
      invariant 0 <= i <= |cs|
      invariant forall j :: 0 <= j < i ==> name !in cs[j].auth.serverList
    {
      if name in cs[i].auth.serverList {
        return Ok(name);
      }
      i := i + 1;
    }
    return Err("Server '" + name + "' is not authenticated");
  }

  /** The message kinds; each schema's `action` field defaults to its own action name. */
  datatype SchemaKind =
    | AuthenticateKind | PlayerStatusCheckKind | PlayerServerCheckKind
    | DispatchCommandKind | SendGlobalMessageKind | SendServerMessageKind
    | SendPlayerMessageKind | CommandExecutedKind

  function DefaultAction(k: SchemaKind): (r: string)
    ensures |r| > 0
  {
    match k
    case AuthenticateKind => "authenticate"
    case PlayerStatusCheckKind => "player-status-check"
    case PlayerServerCheckKind => "player-server-check"
    case DispatchCommandKind => "dispatch-command"
    case SendGlobalMessageKind => "send-global-message"
    case SendServerMessageKind => "send-server-message"
    case SendPlayerMessageKind => "send-player-message"
    case CommandExecutedKind => "command-executed"
  }

  /** Different kinds never share a default action name. */
  lemma DefaultActionInjective(a: SchemaKind, b: SchemaKind)
    requires DefaultAction(a) == DefaultAction(b)
    ensures a == b
  {
  }

  /** The schemas that name a target server run it through `ValidateServer`. */
  predicate HasServerField(k: SchemaKind)
  {
    k.DispatchCommandKind? || k.SendServerMessageKind? || k.CommandExecutedKind?
  }

  /** The `action` field: the given value if present, else the kind's default. */
  function ActionField(k: SchemaKind, given: Option<string>): (r: string)
    ensures given.None? ==> r == DefaultAction(k)
    ensures given.Some? ==> r == given.value
  {
    if given.Some? then given.value else DefaultAction(k)
  }

  const MaxUsername: int := 16
  const MaxUuid: int := 36

  /** A length limit that applies only to a present value. */
  predicate WithinLimit(v: Option<string>, limit: int)
  {
    v.None? || |v.value| <= limit
  }

  /** The shared player-identity check of the three player-addressed schemas. */
  function ValidatePlayer(username: Option<string>, uuid: Option<string>): (r: Result<()>)
    ensures r.Ok? <==> WithinLimit(username, MaxUsername) && WithinLimit(uuid, MaxUuid) && !(username.None? && uuid.None?)
  {
    if !WithinLimit(username, MaxUsername) then Err("username: String should have at most 16 characters")
    else if !WithinLimit(uuid, MaxUuid) then Err("uuid: String should have at most 36 characters")
    else if username.None? && uuid.None? then Err("Either 'username' or 'uuid' must be provided.")
    else Ok(())
  }

  datatype PlayerStatusCheck = PlayerStatusCheck(action: string, username: Option<string>, uuid: Option<string>, online: Option<bool>)

  function ParsePlayerStatusCheck(action: Option<string>, username: Option<string>, uuid: Option<string>, online: Option<bool>): (r: Result<PlayerStatusCheck>)
    ensures r.Ok? <==> ValidatePlayer(username, uuid).Ok?
    ensures r.Ok? ==> r.value == PlayerStatusCheck(ActionField(PlayerStatusCheckKind, action), username, uuid, online)
  {
    var v := ValidatePlayer(username, uuid);
    if v.Err? then Err(v.error)
    else Ok(PlayerStatusCheck(ActionField(PlayerStatusCheckKind, action), username, uuid, online))
  }

  datatype PlayerServerCheck = PlayerServerCheck(action: string, username: Option<string>, uuid: Option<string>, server: Option<string>)

  /** The reply's `server` is optional and, unlike request schemas, not checked against the table. */
  function ParsePlayerServerCheck(action: Option<string>, username: Option<string>, uuid: Option<string>, server: Option<string>): (r: Result<PlayerServerCheck>)
    ensures r.Ok? <==> ValidatePlayer(username, uuid).Ok?
    ensures r.Ok? ==> r.value == PlayerServerCheck(ActionField(PlayerServerCheckKind, action), username, uuid, server)
  {
    var v := ValidatePlayer(username, uuid);
    if v.Err? then Err(v.error)
    else Ok(PlayerServerCheck(ActionField(PlayerServerCheckKind, action), username, uuid, server))
  }

  /** The enum accepts exactly its member values, case-sensitively. */
  function ParseMessageTypeValue(s: string): (r: Option<MessageType>)
    ensures r.None? ==> forall t :: Name(t) != s
    ensures r.Some? ==> Name(r.value) == s
  {
    if s == "INFO" then Some(Info)
    else if s == "SUCCESS" then Some(Success)
    else if s == "WARN" then Some(Warn)
    else if s == "ERROR" then Some(Error)
    else if s == "QUESTION" then Some(Question)
    else if s == "ANNOUNCE" then Some(Announce)
    else if s == "NO_PREFIX" then Some(NoPrefix)
    else None
  }

  datatype SendPlayerMessage = SendPlayerMessage(action: string, messageType: MessageType, message: string, username: Option<string>, uuid: Option<string>)

  function ParseSendPlayerMessage(action: Option<string>, messageType: string, message: string, username: Option<string>, uuid: Option<string>): (r: Result<SendPlayerMessage>)
    ensures r.Ok? <==> ParseMessageTypeValue(messageType).Some? && ValidatePlayer(username, uuid).Ok?
    ensures r.Ok? ==> Name(r.value.messageType) == messageType && r.value.message == message
    ensures r.Ok? ==> r.value.username == username && r.value.uuid == uuid
    ensures r.Ok? ==> r.value.action == ActionField(SendPlayerMessageKind, action)
  {
    var t := ParseMessageTypeValue(messageType);
    var v := ValidatePlayer(username, uuid);
    if t.None? then Err("message_type: Input should be a MessageType member")
    else if v.Err? then Err(v.error)
    else Ok(SendPlayerMessage(ActionField(SendPlayerMessageKind, action), t.value, message, username, uuid))
  }

  /** `commands` may be one string or a list of strings. */
  datatype CommandsArg = OneCommand(command: string) | CommandList(commands: seq<string>)

  function NormalizeCommands(v: CommandsArg): (r: seq<string>)
    ensures v.OneCommand? ==> r == [v.command]
    ensures v.CommandList? ==> r == v.commands
  {
    match v
    case OneCommand(c) => [c]
    case CommandList(cs) => cs
  }

  /** Normalising twice changes nothing. */
  lemma NormalizeIdempotent(v: CommandsArg)
    ensures NormalizeCommands(CommandList(NormalizeCommands(v))) == NormalizeCommands(v)
  {
  }

  datatype DispatchCommand = DispatchCommand(action: string, server: string, commands: seq<string>)

  method ParseDispatchCommand(action: Option<string>, server: string, commands: CommandsArg, cs: seq<ClientEntry>) returns (r: Result<DispatchCommand>)
    ensures r.Ok? <==> server in BuiltinServers || Advertised(cs, server)
    ensures r.Ok? ==> r.value == DispatchCommand(ActionField(DispatchCommandKind, action), server, NormalizeCommands(commands))
  {
    var s := ValidateServer(server, cs);
    if s.Err? {
      return Err(s.error);
    }
    return Ok(DispatchCommand(ActionField(DispatchCommandKind, action), s.value, NormalizeCommands(commands)));
  }
}
