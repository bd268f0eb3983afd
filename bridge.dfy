// The bot side of the plugin connection: the action table, the per-connection
// frame loop with its authentication gate, the authenticate handler, the two
// reply handlers that fill the player projections, and the send primitive.
module Bridge {
  import opened Common
  import opened Timed
  import opened WireSchemas
  import opened GlobalState

  /** Close code 1008, "policy violation" (section 7.4.1 of RFC 6455). */
  const PolicyViolation: int := 1008
  /** A connection must authenticate within 3 seconds. */
  const AuthDeadlineMs: int := 3000

  const IpRejected: string := "Connection not allowed from this IP"
  const AlreadyConnected: string := "Connection already exists"
  const AuthTimeout: string := "Authentication timeout"
  const BadCredentials: string := "Authentication failed: Invalid credentials provided"

  /** The registered handler functions, by what they do. */
  datatype HandlerKind = AuthenticateHandler | StatusReplyHandler | ServerReplyHandler | CommandEventHandler | OtherHandler(name: string)

  /** What the table keeps per action: the handler, its schema, and its parameter names. */
  datatype HandlerEntry = HandlerEntry(handler: HandlerKind, schema: SchemaKind, signature: set<string>)

  class ActionRegistry {
    var handlers: map<string, HandlerEntry>

    constructor()
      ensures handlers == map[]
    {
      handlers := map[];
    }

    /**
     * The registering decorator: returns the handler unchanged, and when
     * loading is on, stores (or replaces, after a warning) the table entry.
     */
    method Register(name: string, handler: HandlerKind, schema: SchemaKind, signature: set<string>, shouldLoad: bool)
      returns (f: HandlerKind, overriding: bool)
      modifies this
      ensures f == handler
      ensures overriding <==> shouldLoad && name in old(handlers)
      ensures handlers == if shouldLoad then old(handlers)[name := HandlerEntry(handler, schema, signature)] else old(handlers)
    {
      overriding := false;
      if shouldLoad {
        overriding := name in handlers;
        handlers := handlers[name := HandlerEntry(handler, schema, signature)];
      }
      f := handler;
    }
  }

  /**
   * The arguments a handler is given: those of its parameters that can be
   * supplied. Naming `bot` or `client` before it is set makes its getter
   * raise, so the handler is not called at all (`None`).
   */
  function Inject(signature: set<string>, botSet: bool, clientSet: bool): (r: Option<set<string>>)
    ensures r.None? <==> ("bot" in signature && !botSet) || ("client" in signature && !clientSet)
    ensures r.Some? ==> r.value <= signature
    ensures r.Some? ==> ("websocket" in r.value <==> "websocket" in signature)
    ensures r.Some? ==> ("data" in r.value <==> "data" in signature)
    ensures r.Some? ==> ("bot" in r.value <==> "bot" in signature)
    ensures r.Some? ==> ("client" in r.value <==> "client" in signature)
    ensures r.Some? ==> forall n :: n in r.value ==> n in {"websocket", "data", "bot", "client"}
  {
    if ("bot" in signature && !botSet) || ("client" in signature && !clientSet) then None
    else
      Some((if "websocket" in signature then {"websocket"} else {})
           + (if "data" in signature then {"data"} else {})
           + (if "bot" in signature then {"bot"} else {})
           + (if "client" in signature then {"client"} else {}))
  }

  /** Settings the loop reads: `allowedIp` is empty when none is configured. */
  datatype ListenerConfig = ListenerConfig(allowedIp: string, password: string, botSet: bool, clientSet: bool)

  /**
   * A received frame, `elapsedMs` after the connection was accepted, and
   * `clock`, the projections' clock in seconds when it is handled. A decoded
   * frame carries its action ("" when missing or empty), the payload as the
   * authenticate and the two reply schemas read it, whether its schema
   * validates, and whether its handler raises.
   */
  datatype Frame = Frame(elapsedMs: int, clock: int, body: Body)
  datatype Body =
    | Undecodable
    | Decoded(action: string, auth: AuthData, statusReply: PlayerStatusCheck, serverReply: PlayerServerCheck,
              schemaOk: bool, handlerRaises: bool)

  datatype Skip = NoAction | NotAuthenticated | NoHandler | InvalidPayload | BadJson | HandlerFailed
  datatype Event =
    | Close(code: int, reason: string)
    | Skipped(why: Skip)
    | Invoked(action: string, handler: HandlerKind, args: set<string>)
    | TornDown

  /** The three player projections the reply handlers fill: online players
      with their stamps, username to uuid, and player to server. */
  datatype Projections = Projections(online: map<string, int>, uuids: map<string, Stamped<string>>,
                                     serverOf: map<string, Stamped<string>>)

  /** The connection's view: the shared client table, server list and
      projections, its own flags, and what it did. */
  datatype Conn = Conn(clients: seq<ClientEntry>, servers: seq<string>, proj: Projections,
                       authComplete: bool, open: bool, trace: seq<Event>)

  /** Python truthiness of an optional string. */
  predicate Given(v: Option<string>)
  {
    v.Some? && v.value != ""
  }

  /** The status reply is used only when it says online and names both username and uuid. */
  predicate StatusApplies(d: PlayerStatusCheck)
  {
    d.online == Some(true) && Given(d.username) && Given(d.uuid)
  }

  /** The status reply handler's effect: an applicable reply marks the
      username and the uuid online and maps the username to the uuid. */
  function StatusReplyEffect(p: Projections, d: PlayerStatusCheck, now: int): (r: Projections)
    ensures !StatusApplies(d) ==> r == p
    ensures StatusApplies(d) ==> r.online.Keys == p.online.Keys + {d.username.value, d.uuid.value}
                                 && r.online[d.username.value] == now && r.online[d.uuid.value] == now
                                 && r.uuids.Keys == p.uuids.Keys + {d.username.value}
                                 && r.uuids[d.username.value] == Stamped(d.uuid.value, now)
    ensures forall k :: k in p.online && !(StatusApplies(d) && k in {d.username.value, d.uuid.value}) ==>
              k in r.online && r.online[k] == p.online[k]
    ensures forall k :: k in p.uuids && !(StatusApplies(d) && k == d.username.value) ==>
              k in r.uuids && r.uuids[k] == p.uuids[k]
    ensures r.serverOf == p.serverOf
  {
    if StatusApplies(d) then
      p.(online := p.online[d.username.value := now][d.uuid.value := now],
         uuids := p.uuids[d.username.value := Stamped(d.uuid.value, now)])
    else p
  }

  /** The server reply handler's effect: a reply naming a server records it
      under the username and under the uuid, each when given. */
  function ServerReplyEffect(p: Projections, d: PlayerServerCheck, now: int): (r: Projections)
    ensures r.online == p.online && r.uuids == p.uuids
    ensures !Given(d.server) ==> r == p
    ensures forall k :: k in r.serverOf <==> k in p.serverOf || (Given(d.server) && (d.username == Some(k) || d.uuid == Some(k)) && k != "")
    ensures Given(d.server) && Given(d.username) ==> r.serverOf[d.username.value] == Stamped(d.server.value, now)
    ensures Given(d.server) && Given(d.uuid) ==> r.serverOf[d.uuid.value] == Stamped(d.server.value, now)
    ensures forall k :: k in p.serverOf && !(Given(d.server) && (d.username == Some(k) || d.uuid == Some(k))) ==>
              r.serverOf[k] == p.serverOf[k]
  {
    if !Given(d.server) then p
    else
      var m1 := if Given(d.username) then p.serverOf[d.username.value := Stamped(d.server.value, now)] else p.serverOf;
      p.(serverOf := if Given(d.uuid) then m1[d.uuid.value := Stamped(d.server.value, now)] else m1)
  }

  function Note(c: Conn, why: Skip): (r: Conn)
    ensures r == c.(trace := c.trace + [Skipped(why)])
  {
    c.(trace := c.trace + [Skipped(why)])
  }

  /** The authenticate handler's effect on the connection's view. */
  function AuthEffect(c: Conn, id: int, data: AuthData, password: string): (r: Conn)
    ensures data.password != password ==> r == c.(open := false, trace := c.trace + [Close(PolicyViolation, BadCredentials)])
    ensures data.password == password ==> r.clients == PutClient(c.clients, id, data) && r.open == c.open
    ensures data.password == password ==> r.servers == c.servers + data.serverList + ["all"] && r.trace == c.trace
    ensures r.authComplete == c.authComplete
  {
    if data.password != password then c.(open := false, trace := c.trace + [Close(PolicyViolation, BadCredentials)])
    else c.(clients := PutClient(c.clients, id, data), servers := c.servers + data.serverList + ["all"])
  }

  /** One turn of the frame loop. */
  function Step(c: Conn, id: int, cfg: ListenerConfig, reg: map<string, HandlerEntry>, f: Frame): Conn
  {
    if !c.open then c
    else if !c.authComplete && f.elapsedMs >= AuthDeadlineMs then
      c.(open := false, trace := c.trace + [Close(PolicyViolation, AuthTimeout)])
    else match f.body
      case Undecodable => Note(c, BadJson)
      case Decoded(action, data, _, _, schemaOk, raises) =>
        if action == "" then Note(c, NoAction)
        else if !HasClient(c.clients, id) && action != "authenticate" then Note(c, NotAuthenticated)
        else if action !in reg then Note(c, NoHandler)
        else if !schemaOk then Note(c, InvalidPayload)
        else
          var e := reg[action];
          var args := Inject(e.signature, cfg.botSet, cfg.clientSet);
          if args.None? then Note(c, HandlerFailed)
          else
            var c1 := c.(trace := c.trace + [Invoked(action, e.handler, args.value)]);
            if e.handler.AuthenticateHandler? then
              var c2 := AuthEffect(c1, id, data, cfg.password);
              if action == "authenticate" && HasClient(c2.clients, id) then c2.(authComplete := true) else c2
            else if raises then Note(c1, HandlerFailed)
            else if e.handler.StatusReplyHandler? then c1.(proj := StatusReplyEffect(c.proj, f.body.statusReply, f.clock))
            else if e.handler.ServerReplyHandler? then c1.(proj := ServerReplyEffect(c.proj, f.body.serverReply, f.clock))
            else c1
  }

  function RunFrames(c: Conn, id: int, cfg: ListenerConfig, reg: map<string, HandlerEntry>, fs: seq<Frame>): Conn
  {
    if |fs| == 0 then c else Step(RunFrames(c, id, cfg, reg, fs[..|fs| - 1]), id, cfg, reg, fs[|fs| - 1])
  }

  lemma RunFramesSnoc(c: Conn, id: int, cfg: ListenerConfig, reg: map<string, HandlerEntry>, fs: seq<Frame>, i: int)
    requires 0 <= i < |fs|
    ensures RunFrames(c, id, cfg, reg, fs[..i + 1]) == Step(RunFrames(c, id, cfg, reg, fs[..i]), id, cfg, reg, fs[i])
  {
    assert fs[..i + 1][..i] == fs[..i];
  }

  predicate IpAllowed(cfg: ListenerConfig, peer: Option<string>)
  {
    cfg.allowedIp == "" || peer == Some(cfg.allowedIp)
  }

  /** A whole connection, from accept to teardown. */
  function Session(clients: seq<ClientEntry>, servers: seq<string>, proj: Projections, id: int, peer: Option<string>,
                   cfg: ListenerConfig, reg: map<string, HandlerEntry>, fs: seq<Frame>): Conn
  {
    if !IpAllowed(cfg, peer) then Conn(clients, servers, proj, false, false, [Close(PolicyViolation, IpRejected)])
    else if HasClient(clients, id) then Conn(clients, servers, proj, false, false, [Close(PolicyViolation, AlreadyConnected)])
    else
      var c := RunFrames(Conn(clients, servers, proj, false, true, []), id, cfg, reg, fs);
      c.(clients := DelClient(c.clients, id), servers := [], trace := c.trace + [TornDown])
  }

  /** Once the loop has stopped, later frames change nothing. */
  lemma {:induction false} ClosedAbsorbs(c: Conn, id: int, cfg: ListenerConfig, reg: map<string, HandlerEntry>, fs: seq<Frame>, i: int)
    requires 0 <= i <= |fs|
    requires !RunFrames(c, id, cfg, reg, fs[..i]).open
    ensures RunFrames(c, id, cfg, reg, fs) == RunFrames(c, id, cfg, reg, fs[..i])
    decreases |fs| - i
  {
    if i < |fs| {
      var pre := fs[..|fs| - 1];
      assert pre[..i] == fs[..i];
      ClosedAbsorbs(c, id, cfg, reg, pre, i);
    } else {
      assert fs[..i] == fs;
    }
  }

  /** A disallowed peer is closed before any frame is read; nothing else happens. */
  lemma SessionIpRejected(clients: seq<ClientEntry>, servers: seq<string>, proj: Projections, id: int, peer: Option<string>,
                          cfg: ListenerConfig, reg: map<string, HandlerEntry>, fs: seq<Frame>)
    requires cfg.allowedIp != "" && peer != Some(cfg.allowedIp)
    ensures Session(clients, servers, proj, id, peer, cfg, reg, fs) == Conn(clients, servers, proj, false, false, [Close(PolicyViolation, IpRejected)])
  {
  }

  /** An id already in the table is closed at once, without teardown. */
  lemma SessionDuplicateRejected(clients: seq<ClientEntry>, servers: seq<string>, proj: Projections, id: int, peer: Option<string>,
                                 cfg: ListenerConfig, reg: map<string, HandlerEntry>, fs: seq<Frame>)
    requires IpAllowed(cfg, peer) && HasClient(clients, id)
    ensures Session(clients, servers, proj, id, peer, cfg, reg, fs) == Conn(clients, servers, proj, false, false, [Close(PolicyViolation, AlreadyConnected)])
  {
  }

  /** The frame loop only ever adds or replaces the connection's own table entry. */
  lemma {:induction false} RunFramesKeepsOthers(c: Conn, id: int, cfg: ListenerConfig, reg: map<string, HandlerEntry>, fs: seq<Frame>, e: ClientEntry)
    requires e.id != id
    ensures e in RunFrames(c, id, cfg, reg, fs).clients <==> e in c.clients
  {
    if |fs| > 0 {
      var prev := RunFrames(c, id, cfg, reg, fs[..|fs| - 1]);
      RunFramesKeepsOthers(c, id, cfg, reg, fs[..|fs| - 1], e);
      var next := Step(prev, id, cfg, reg, fs[|fs| - 1]);
      if next.clients != prev.clients {
        var f := fs[|fs| - 1];
        assert next.clients == PutClient(prev.clients, id, f.body.auth);
        PutClientKeepsOthers(prev.clients, id, f.body.auth, e);
      }
    }
  }

  /** Storing one connection's entry keeps every other entry and adds none. */
  lemma PutClientKeepsOthers(cs: seq<ClientEntry>, id: int, a: AuthData, e: ClientEntry)
    requires e.id != id
    ensures e in PutClient(cs, id, a) <==> e in cs
  {
    var r := PutClient(cs, id, a);
    if HasClient(cs, id) {
      if e in cs {
        var i :| 0 <= i < |cs| && cs[i] == e;
        assert r[i] == e;
      }
      if e in r {
        var i :| 0 <= i < |r| && r[i] == e;
        assert cs[i] == e;
      }
    }
  }

  /** Completed authentication means the connection is in the table. */
  lemma {:induction false} RunFramesAuthInTable(c: Conn, id: int, cfg: ListenerConfig, reg: map<string, HandlerEntry>, fs: seq<Frame>)
    requires c.authComplete ==> HasClient(c.clients, id)
    ensures RunFrames(c, id, cfg, reg, fs).authComplete ==> HasClient(RunFrames(c, id, cfg, reg, fs).clients, id)
  {
    if |fs| > 0 {
      var prev := RunFrames(c, id, cfg, reg, fs[..|fs| - 1]);
      RunFramesAuthInTable(c, id, cfg, reg, fs[..|fs| - 1]);
      var f := fs[|fs| - 1];
      if f.body.Decoded? {
        PutClientHas(prev.clients, id, f.body.auth, id);
      }
    }
  }

  /** After a completed session the connection's entry is gone, the server list is empty, and other entries are as before. */
  lemma SessionTeardown(clients: seq<ClientEntry>, servers: seq<string>, proj: Projections, id: int, peer: Option<string>,
                        cfg: ListenerConfig, reg: map<string, HandlerEntry>, fs: seq<Frame>)
    requires IpAllowed(cfg, peer) && !HasClient(clients, id)
    ensures var s := Session(clients, servers, proj, id, peer, cfg, reg, fs);
      !HasClient(s.clients, id) && s.servers == [] && |s.trace| > 0 && s.trace[|s.trace| - 1] == TornDown
      && forall e :: e in s.clients <==> e in clients && e.id != id
  {
    var c := RunFrames(Conn(clients, servers, proj, false, true, []), id, cfg, reg, fs);
    forall e ensures e in DelClient(c.clients, id) <==> e in clients && e.id != id {
      if e.id != id {
        RunFramesKeepsOthers(Conn(clients, servers, proj, false, true, []), id, cfg, reg, fs, e);
      }
    }
  }

  /** Past the deadline without completed authentication, the next frame closes the connection and does nothing else. */
  lemma StepDeadline(c: Conn, id: int, cfg: ListenerConfig, reg: map<string, HandlerEntry>, f: Frame)
    requires c.open && !c.authComplete && f.elapsedMs >= AuthDeadlineMs
    ensures Step(c, id, cfg, reg, f) == c.(open := false, trace := c.trace + [Close(PolicyViolation, AuthTimeout)])
  {
  }

  /** An unauthenticated connection gets no handler run for any action but "authenticate". */
  lemma StepUnauthenticated(c: Conn, id: int, cfg: ListenerConfig, reg: map<string, HandlerEntry>, f: Frame)
    requires c.open && f.body.Decoded? && f.body.action != "authenticate" && !HasClient(c.clients, id)
    ensures var r := Step(c, id, cfg, reg, f);
      r.clients == c.clients && r.servers == c.servers && r.proj == c.proj && r.authComplete == c.authComplete
      && |r.trace| == |c.trace| + 1 && !r.trace[|c.trace|].Invoked?
  {
  }

  /** A frame whose registered handler is the status reply handler, once
      authenticated, validated and run without raising, applies the reply to
      the projections and leaves the table, the server list and the flags. */
  lemma StepStatusReply(c: Conn, id: int, cfg: ListenerConfig, reg: map<string, HandlerEntry>, f: Frame)
    requires c.open && (c.authComplete || f.elapsedMs < AuthDeadlineMs) && HasClient(c.clients, id)
    requires f.body.Decoded? && f.body.action != "" && f.body.action in reg && f.body.schemaOk && !f.body.handlerRaises
    requires reg[f.body.action].handler.StatusReplyHandler?
    requires Inject(reg[f.body.action].signature, cfg.botSet, cfg.clientSet).Some?
    ensures var r := Step(c, id, cfg, reg, f);
      r.proj == StatusReplyEffect(c.proj, f.body.statusReply, f.clock)
      && r.clients == c.clients && r.servers == c.servers && r.open && r.authComplete == c.authComplete
  {
  }

  /** The same for the server reply handler. */
  lemma StepServerReply(c: Conn, id: int, cfg: ListenerConfig, reg: map<string, HandlerEntry>, f: Frame)
    requires c.open && (c.authComplete || f.elapsedMs < AuthDeadlineMs) && HasClient(c.clients, id)
    requires f.body.Decoded? && f.body.action != "" && f.body.action in reg && f.body.schemaOk && !f.body.handlerRaises
    requires reg[f.body.action].handler.ServerReplyHandler?
    requires Inject(reg[f.body.action].signature, cfg.botSet, cfg.clientSet).Some?
    ensures var r := Step(c, id, cfg, reg, f);
      r.proj == ServerReplyEffect(c.proj, f.body.serverReply, f.clock)
      && r.clients == c.clients && r.servers == c.servers && r.open && r.authComplete == c.authComplete
  {
  }

  /** The frame loop never removes a player from a projection: only expiry does. */
  lemma {:induction false} RunFramesProjectionsGrow(c: Conn, id: int, cfg: ListenerConfig, reg: map<string, HandlerEntry>, fs: seq<Frame>)
    ensures var r := RunFrames(c, id, cfg, reg, fs);
      c.proj.online.Keys <= r.proj.online.Keys && c.proj.uuids.Keys <= r.proj.uuids.Keys
      && c.proj.serverOf.Keys <= r.proj.serverOf.Keys
  {
    if |fs| > 0 {
      RunFramesProjectionsGrow(c, id, cfg, reg, fs[..|fs| - 1]);
      StepProjectionsGrow(RunFrames(c, id, cfg, reg, fs[..|fs| - 1]), id, cfg, reg, fs[|fs| - 1]);
    }
  }

  /** One step never removes a player from a projection. */
  lemma StepProjectionsGrow(c: Conn, id: int, cfg: ListenerConfig, reg: map<string, HandlerEntry>, f: Frame)
    ensures var r := Step(c, id, cfg, reg, f);
      c.proj.online.Keys <= r.proj.online.Keys && c.proj.uuids.Keys <= r.proj.uuids.Keys
      && c.proj.serverOf.Keys <= r.proj.serverOf.Keys
  {
  }

  /** Authentication completes only on an "authenticate" frame whose password matches and whose handler put the id in the table. */
  lemma StepAuthCompletes(c: Conn, id: int, cfg: ListenerConfig, reg: map<string, HandlerEntry>, f: Frame)
    requires c.open && !c.authComplete && !HasClient(c.clients, id)
    requires Step(c, id, cfg, reg, f).authComplete
    ensures f.body.Decoded? && f.body.action == "authenticate" && f.elapsedMs < AuthDeadlineMs
    ensures "authenticate" in reg && reg["authenticate"].handler.AuthenticateHandler?
    ensures f.body.auth.password == cfg.password
    ensures HasClient(Step(c, id, cfg, reg, f).clients, id)
  {
  }

  /** A frame that raises in its handler, or fails validation, or cannot be decoded, leaves the loop running. */
  lemma StepContinues(c: Conn, id: int, cfg: ListenerConfig, reg: map<string, HandlerEntry>, f: Frame)
    requires c.open && (c.authComplete || f.elapsedMs < AuthDeadlineMs)
    requires f.body.Undecodable? || !f.body.schemaOk || f.body.handlerRaises || f.body.action !in reg
    requires f.body.Decoded? && f.body.action in reg ==> !reg[f.body.action].handler.AuthenticateHandler?
    ensures Step(c, id, cfg, reg, f).open
  {
  }

  /** A handler that names the bot or the client before it is set is not
      run: the frame is logged as failed and the connection stays as it was. */
  lemma StepUnavailableSkips(c: Conn, id: int, cfg: ListenerConfig, reg: map<string, HandlerEntry>, f: Frame)
    requires c.open && (c.authComplete || f.elapsedMs < AuthDeadlineMs)
    requires f.body.Decoded? && f.body.action != "" && f.body.schemaOk && f.body.action in reg
    requires HasClient(c.clients, id) || f.body.action == "authenticate"
    requires var sig := reg[f.body.action].signature;
             ("bot" in sig && !cfg.botSet) || ("client" in sig && !cfg.clientSet)
    ensures Step(c, id, cfg, reg, f) == c.(trace := c.trace + [Skipped(HandlerFailed)])
  {
  }

  /** The projections as the state holds them. */
  ghost function ProjOf(mc: MinecraftState): Projections
    reads mc, mc.online, mc.uuids, mc.serverOf
  {
    Projections(mc.online.items, mc.uuids.entries, mc.serverOf.entries)
  }

  class Hub {
    /** The table of authenticated connections, in insertion order. */
    var clients: seq<ClientEntry>
    const mc: MinecraftState
    const registry: ActionRegistry

    constructor(m: MinecraftState, r: ActionRegistry)
      ensures clients == [] && mc == m && registry == r
    {
      clients := [];
      mc := m;
      registry := r;
    }

    /** The authenticate handler: exact password comparison, then table entry and server list. */
    method Authenticate(id: int, data: AuthData, password: string) returns (closed: bool)
      requires mc.Valid()
      modifies this, mc
      ensures mc.Valid()
      ensures closed <==> data.password != password
      ensures closed ==> clients == old(clients) && mc.servers == old(mc.servers)
      ensures !closed ==> clients == PutClient(old(clients), id, data)
      ensures !closed ==> mc.servers == old(mc.servers) + data.serverList + ["all"]
      ensures mc.online == old(mc.online) && mc.uuids == old(mc.uuids) && mc.serverOf == old(mc.serverOf)
    {
      if data.password != password {
        return true;
      }
      clients := PutClient(clients, id, data);
      mc.AddServer(ServerList(data.serverList + ["all"]));
      return false;
    }

    /** One turn of the loop on an open connection, as `Step` says. */
    method HandleFrame(id: int, cfg: ListenerConfig, reg: map<string, HandlerEntry>, f: Frame,
                       authComplete: bool, trace: seq<Event>)
      returns (authComplete': bool, open': bool, trace': seq<Event>)
      requires mc.Valid()
      modifies this, mc, mc.online, mc.uuids, mc.serverOf
      ensures mc.Valid()
      ensures mc.online == old(mc.online) && mc.uuids == old(mc.uuids) && mc.serverOf == old(mc.serverOf)
      ensures Conn(clients, mc.servers, ProjOf(mc), authComplete', open', trace')
              == Step(Conn(old(clients), old(mc.servers), old(ProjOf(mc)), authComplete, true, trace), id, cfg, reg, f)
    {
      authComplete', open', trace' := authComplete, true, trace;
      if !authComplete && f.elapsedMs >= AuthDeadlineMs {
        trace' := trace + [Close(PolicyViolation, AuthTimeout)];
        open' := false;
      } else if f.body.Undecodable? {
        trace' := trace + [Skipped(BadJson)];
      } else if f.body.action == "" {
        trace' := trace + [Skipped(NoAction)];
      } else if !HasClient(clients, id) && f.body.action != "authenticate" {
        trace' := trace + [Skipped(NotAuthenticated)];
      } else if f.body.action !in reg {
        trace' := trace + [Skipped(NoHandler)];
      } else if !f.body.schemaOk {
        trace' := trace + [Skipped(InvalidPayload)];
      } else {
        var e := reg[f.body.action];
        var args := Inject(e.signature, cfg.botSet, cfg.clientSet);
        if args.None? {
          trace' := trace + [Skipped(HandlerFailed)];
        } else {
          trace' := trace + [Invoked(f.body.action, e.handler, args.value)];
          if e.handler.AuthenticateHandler? {
            var closed := Authenticate(id, f.body.auth, cfg.password);
            if closed {
              trace' := trace' + [Close(PolicyViolation, BadCredentials)];
              open' := false;
            }
            if f.body.action == "authenticate" && HasClient(clients, id) {
              authComplete' := true;
            }
          } else if f.body.handlerRaises {
            trace' := trace' + [Skipped(HandlerFailed)];
          } else if e.handler.StatusReplyHandler? {
            PlayerStatusCheckReply(mc, f.body.statusReply, f.clock);
          } else if e.handler.ServerReplyHandler? {
            PlayerServerCheckReply(mc, f.body.serverReply, f.clock);
          }
        }
      }
    }

    /** The per-connection loop: the table, the server list, the player
        projections and the event trace end as the session function says. */
    method HandleConnection(id: int, peer: Option<string>, cfg: ListenerConfig, frames: seq<Frame>) returns (trace: seq<Event>)
      requires mc.Valid()
      modifies this, mc, mc.online, mc.uuids, mc.serverOf
      ensures mc.Valid()
      ensures var s := Session(old(clients), old(mc.servers), old(ProjOf(mc)), id, peer, cfg, registry.handlers, frames);
        clients == s.clients && mc.servers == s.servers && ProjOf(mc) == s.proj && trace == s.trace
    {
      if cfg.allowedIp != "" && peer != Some(cfg.allowedIp) {
        return [Close(PolicyViolation, IpRejected)];
      }
      if HasClient(clients, id) {
        return [Close(PolicyViolation, AlreadyConnected)];
      }
      var reg := registry.handlers;
      ghost var start := Conn(clients, mc.servers, ProjOf(mc), false, true, []);
      var authComplete := false;
      var open := true;
      trace := [];
      var i := 0;
      while i < |frames| && open
        invariant 0 <= i <= |frames|
        invariant mc.Valid()
        invariant mc.online == old(mc.online) && mc.uuids == old(mc.uuids) && mc.serverOf == old(mc.serverOf)
        invariant Conn(clients, mc.servers, ProjOf(mc), authComplete, open, trace) == RunFrames(start, id, cfg, reg, frames[..i])
      {
        RunFramesSnoc(start, id, cfg, reg, frames, i);
        authComplete, open, trace := HandleFrame(id, cfg, reg, frames[i], authComplete, trace);
        i := i + 1;
      }
      if !open {
        ClosedAbsorbs(start, id, cfg, reg, frames, i);
      } else {
        assert frames[..i] == frames;
      }
      clients := DelClient(clients, id);
      mc.ClearServers();
      trace := trace + [TornDown];
    }
  }

  method PlayerStatusCheckReply(mc: MinecraftState, d: PlayerStatusCheck, now: int)
    requires mc.Valid()
    modifies mc.online, mc.uuids
    ensures mc.Valid()
    ensures ProjOf(mc) == StatusReplyEffect(old(ProjOf(mc)), d, now)
    ensures StatusApplies(d) ==> mc.online.items == old(mc.online.items)[d.username.value := now][d.uuid.value := now]
    ensures StatusApplies(d) ==> mc.uuids.entries == old(mc.uuids.entries)[d.username.value := Stamped(d.uuid.value, now)]
    ensures !StatusApplies(d) ==> mc.online.items == old(mc.online.items) && mc.uuids.entries == old(mc.uuids.entries)
    ensures mc.serverOf.entries == old(mc.serverOf.entries)
  {
    if StatusApplies(d) {
      mc.AddOnlinePlayer(d.username.value, now);
      mc.AddOnlinePlayer(d.uuid.value, now);
      mc.AddPlayerUuid(d.username.value, d.uuid.value, now);
    }
  }

  method PlayerServerCheckReply(mc: MinecraftState, d: PlayerServerCheck, now: int)
    requires mc.Valid()
    modifies mc.serverOf
    ensures mc.Valid()
    ensures ProjOf(mc) == ServerReplyEffect(old(ProjOf(mc)), d, now)
    ensures !Given(d.server) ==> mc.serverOf.entries == old(mc.serverOf.entries)
    ensures Given(d.server) ==> (mc.serverOf.entries ==
      (var m1 := if Given(d.username) then old(mc.serverOf.entries)[d.username.value := Stamped(d.server.value, now)] else old(mc.serverOf.entries);
       if Given(d.uuid) then m1[d.uuid.value := Stamped(d.server.value, now)] else m1))
    ensures mc.online.items == old(mc.online.items) && mc.uuids.entries == old(mc.uuids.entries)
  {
    if Given(d.server) {
      if Given(d.username) {
        mc.AddPlayerServer(d.username.value, d.server.value, now);
      }
      if Given(d.uuid) {
        mc.AddPlayerServer(d.uuid.value, d.server.value, now);
      }
    }
  }

  /** How the payload is turned into text. */
  datatype Encoder = ModelDumpJson | JsonDumps
  datatype SendOutcome = Delivered | ConnectionClosed | SendFailed
  datatype SendReport = SendReport(ok: bool, target: Option<int>, encoder: Option<Encoder>)

  /** Sends to the first authenticated connection only; the transport's outcome is a parameter. */
  function SendMessage(cs: seq<ClientEntry>, isModel: bool, outcome: SendOutcome): (r: SendReport)
    ensures |cs| == 0 ==> r == SendReport(false, None, None)
    ensures |cs| > 0 ==> r.target == Some(cs[0].id)
    ensures |cs| > 0 ==> r.encoder == Some(if isModel then ModelDumpJson else JsonDumps)
    ensures r.ok <==> |cs| > 0 && outcome == Delivered
  {
    if |cs| == 0 then SendReport(false, None, None)
    else SendReport(outcome == Delivered, Some(cs[0].id), Some(if isModel then ModelDumpJson else JsonDumps))
  }
}
