// Process-wide registries of the bot: the scheduled-task table keyed by
// (user id, punishment type), the per-command synchronisation flags, and
// the Minecraft-side view (server names plus three 10-second projections).
module GlobalState {
  import opened Common
  import opened Timed

  /** The punishment kinds a task or a log entry can be about. */
  datatype PunishmentType = Kick | Ban | Unban | Timeout | Untimeout

  /** A user is passed either as a user object or as a raw numeric id. */
  datatype UserRef = UserObject(id: int) | RawId(id: int)

  type TaskKey = (int, PunishmentType)

  /** Scheduled tasks are opaque handles; cancellation is tracked by the registry. */
  type TaskId = int

  function UserIdOf(u: UserRef): (r: int)
    ensures u.UserObject? ==> r == u.id
    ensures u.RawId? ==> r == u.id
  {
    match u
    case UserObject(id) => id
    case RawId(id) => id
  }

  function TaskKeyOf(u: UserRef, p: PunishmentType): (r: TaskKey)
    ensures r.0 == UserIdOf(u) && r.1 == p
  {
    (UserIdOf(u), p)
  }

  /** The key does not depend on how the user was passed. */
  lemma KeyIndependentOfUserForm(n: int, p: PunishmentType)
    ensures TaskKeyOf(UserObject(n), p) == TaskKeyOf(RawId(n), p)
  {
  }

  /** The tasks of one user, keyed by punishment type. */
  function TasksOfUser(tasks: map<TaskKey, TaskId>, uid: int): (r: map<PunishmentType, TaskId>)
    ensures forall p :: p in r <==> (uid, p) in tasks
    ensures forall p :: p in r ==> r[p] == tasks[(uid, p)]
  {
    map p | (uid, p) in tasks :: tasks[(uid, p)]
  }

  /**
   * `add_or_refresh_task` on the registry's contents: the key's previous task
   * (if any) is cancelled and exactly `t` ends up under the key.
   */
  function RegistryAddOrRefresh(tasks: map<TaskKey, TaskId>, cancelled: set<TaskId>, key: TaskKey, t: TaskId): (r: (map<TaskKey, TaskId>, set<TaskId>))
    ensures key in r.0 && r.0[key] == t
    ensures forall k :: k != key ==> (k in r.0 <==> k in tasks) && (k in tasks ==> r.0[k] == tasks[k])
    ensures key in tasks ==> tasks[key] in r.1
    ensures cancelled <= r.1 && r.1 <= cancelled + (if key in tasks then {tasks[key]} else {})
  {
    (tasks[key := t], if key in tasks then cancelled + {tasks[key]} else cancelled)
  }

  class TasksState {
    var tasks: map<TaskKey, TaskId>
    /** Tasks on which `cancel` has been called. */
    var cancelled: set<TaskId>

    constructor()
      ensures tasks == map[] && cancelled == {}
    {
      tasks := map[];
      cancelled := {};
    }

    function HasTask(u: UserRef, p: PunishmentType): (r: bool)
      reads this
      ensures r <==> (UserIdOf(u), p) in tasks
    {
      TaskKeyOf(u, p) in tasks
    }

    function GetTask(u: UserRef, p: PunishmentType): (r: Option<TaskId>)
      reads this
      ensures r.Some? <==> HasTask(u, p)
      ensures r.Some? ==> r.value == tasks[(UserIdOf(u), p)]
    {
      var key := TaskKeyOf(u, p);
      if key in tasks then Some(tasks[key]) else None
    }

    /** Stores `t` only when the key has no task yet. */
    method AddTask(u: UserRef, p: PunishmentType, t: TaskId) returns (ok: bool)
      modifies this
      ensures ok <==> TaskKeyOf(u, p) !in old(tasks)
      ensures tasks == if ok then old(tasks)[TaskKeyOf(u, p) := t] else old(tasks)
      ensures cancelled == old(cancelled)
    {
      var key := TaskKeyOf(u, p);
      if key in tasks {
        return false;
      }
      tasks := tasks[key := t];
      return true;
    }

    /** Cancels whatever task the key had, then stores `t` there. */
    method AddOrRefreshTask(u: UserRef, p: PunishmentType, t: TaskId)
      modifies this
      ensures (tasks, cancelled) == RegistryAddOrRefresh(old(tasks), old(cancelled), TaskKeyOf(u, p), t)
    {
      var key := TaskKeyOf(u, p);
      if key in tasks && tasks[key] !in cancelled {
        cancelled := cancelled + {tasks[key]};
      } else if key in tasks {
        assert cancelled + {tasks[key]} == cancelled;
      }
      tasks := tasks[key := t];
    }

    /** Replaces an existing entry without cancelling the old task. */
    method RefreshTask(u: UserRef, p: PunishmentType, t: TaskId) returns (ok: bool)
      modifies this
      ensures ok <==> TaskKeyOf(u, p) in old(tasks)
      ensures tasks == if ok then old(tasks)[TaskKeyOf(u, p) := t] else old(tasks)
      ensures cancelled == old(cancelled)
    {
      var key := TaskKeyOf(u, p);
      if key !in tasks {
        return false;
      }
      tasks := tasks[key := t];
      return true;
    }

    /** Cancels the key's task and forgets it. */
    method CancelTask(u: UserRef, p: PunishmentType) returns (ok: bool)
      modifies this
      ensures ok <==> TaskKeyOf(u, p) in old(tasks)
      ensures tasks == old(tasks) - {TaskKeyOf(u, p)}
      ensures ok ==> cancelled == old(cancelled) + {old(tasks)[TaskKeyOf(u, p)]}
      ensures !ok ==> cancelled == old(cancelled)
    {
      var key := TaskKeyOf(u, p);
      if key !in tasks {
        return false;
      }
      var task := tasks[key];
      if task !in cancelled {
        cancelled := cancelled + {task};
      }
      tasks := tasks - {key};
      return true;
    }

    /** Forgets the key's task without cancelling it. */
    method RemoveTask(u: UserRef, p: PunishmentType) returns (ok: bool)
      modifies this
      ensures ok <==> TaskKeyOf(u, p) in old(tasks)
      ensures tasks == old(tasks) - {TaskKeyOf(u, p)}
      ensures cancelled == old(cancelled)
    {
      var key := TaskKeyOf(u, p);
      if key !in tasks {
        return false;
      }
      tasks := tasks - {key};
      return true;
    }

    function GetAllTasksForUser(u: UserRef): (r: map<PunishmentType, TaskId>)
      reads this
      ensures forall p :: p in r <==> HasTask(u, p)
      ensures forall p :: p in r ==> Some(r[p]) == GetTask(u, p)
    {
      TasksOfUser(tasks, UserIdOf(u))
    }
  }

  datatype SyncFlags = SyncFlags(minecraftToDiscord: bool, discordToMinecraft: bool)

  class CommandState {
    var sync: map<string, SyncFlags>

    constructor()
      ensures sync == map[]
    {
      sync := map[];
    }

    /** Registers (or overwrites) both directions for a command. */
    method AddSyncState(name: string, toDiscord: bool, toMinecraft: bool)
      modifies this
      ensures sync == old(sync)[name := SyncFlags(toDiscord, toMinecraft)]
      ensures IsMinecraftToDiscord(name) == toDiscord && IsDiscordToMinecraft(name) == toMinecraft
    {
      sync := sync[name := SyncFlags(toDiscord, toMinecraft)];
    }

    function GetCommandSyncState(name: string): (r: Option<SyncFlags>)
      reads this
      ensures r.None? <==> name !in sync
      ensures r.Some? ==> r.value == sync[name]
    {
      if name in sync then Some(sync[name]) else None
    }

    /** False for a command that was never registered. */
    function IsMinecraftToDiscord(name: string): (r: bool)
      reads this
      ensures r <==> GetCommandSyncState(name).Some? && GetCommandSyncState(name).value.minecraftToDiscord
    {
      name in sync && sync[name].minecraftToDiscord
    }

    /** False for a command that was never registered. */
    function IsDiscordToMinecraft(name: string): (r: bool)
      reads this
      ensures r <==> GetCommandSyncState(name).Some? && GetCommandSyncState(name).value.discordToMinecraft
    {
      name in sync && sync[name].discordToMinecraft
    }
  }

  /** `add_server` takes either one name or a list of names. */
  datatype ServerArg = OneServer(name: string) | ServerList(names: seq<string>)

  function ServerNames(a: ServerArg): (r: seq<string>)
    ensures a.OneServer? ==> r == [a.name]
    ensures a.ServerList? ==> r == a.names
  {
    match a
    case OneServer(n) => [n]
    case ServerList(ns) => ns
  }

  /** Time-to-live of the three player projections, in seconds. */
  const ProjectionTtl: int := 10

  class MinecraftState {
    var servers: seq<string>
    var online: TimedSet<string>
    var uuids: TimedDict<string, string>
    var serverOf: TimedDict<string, string>

    ghost predicate Valid()
      reads this, online, uuids, serverOf
    {
      uuids != serverOf
      && online.Valid() && uuids.Valid() && serverOf.Valid()
      && online.ttl == ProjectionTtl && uuids.ttl == ProjectionTtl && serverOf.ttl == ProjectionTtl
      && !online.lazy && !uuids.lazy && !serverOf.lazy
    }

    constructor()
      ensures Valid() && fresh(online) && fresh(uuids) && fresh(serverOf)
      ensures servers == [] && online.items == map[] && uuids.entries == map[] && serverOf.entries == map[]
    {
      servers := [];
      online := new TimedSet(ProjectionTtl, false);
      uuids := new TimedDict(ProjectionTtl, false);
      serverOf := new TimedDict(ProjectionTtl, false);
    }

    /** Appends one name or extends by a list, keeping order and duplicates. */
    method AddServer(a: ServerArg)
      modifies this
      ensures servers == old(servers) + ServerNames(a)
      ensures online == old(online) && uuids == old(uuids) && serverOf == old(serverOf)
    {
      match a
      case OneServer(n) => servers := servers + [n];
      case ServerList(ns) => servers := servers + ns;
    }

    /** A snapshot of the list; sequences are values, so later changes do not reach it. */
    function GetServers(): (r: seq<string>)
      reads this
      ensures |r| == |servers| && forall i :: 0 <= i < |r| ==> r[i] == servers[i]
    {
      servers
    }

    function ContainsServer(name: string): (r: bool)
      reads this
      ensures r <==> exists i :: 0 <= i < |servers| && servers[i] == name
    {
      name in servers
    }

    method ClearServers()
      modifies this
      ensures servers == []
      ensures online == old(online) && uuids == old(uuids) && serverOf == old(serverOf)
    {
      servers := [];
    }

    method AddOnlinePlayer(player: string, now: int)
      requires Valid()
      modifies online
      ensures Valid()
      ensures online.items == old(online.items)[player := now]
    {
      online.Add([player], now);
    }

    method CheckPlayerOnline(player: string, now: int) returns (r: bool)
      requires Valid()
      modifies online
      ensures Valid()
      ensures online.items == old(online.items)
      ensures r <==> player in online.items
    {
      r := online.Contains(player, now);
    }

    method AddPlayerUuid(username: string, uuid: string, now: int)
      requires Valid()
      modifies uuids
      ensures Valid()
      ensures uuids.entries == old(uuids.entries)[username := Stamped(uuid, now)]
    {
      uuids.Set(username, uuid, now);
    }

    method GetPlayerUuid(username: string, now: int) returns (r: Option<string>)
      requires Valid()
      modifies uuids
      ensures Valid()
      ensures uuids.entries == old(uuids.entries)
      ensures r == if username in uuids.entries then Some(uuids.entries[username].value) else None
    {
      var got := uuids.Get(username, now);
      r := if got.Ok? then Some(got.value) else None;
    }

    method AddPlayerServer(username: string, server: string, now: int)
      requires Valid()
      modifies serverOf
      ensures Valid()
      ensures serverOf.entries == old(serverOf.entries)[username := Stamped(server, now)]
    {
      serverOf.Set(username, server, now);
    }

    method GetPlayerServer(username: string, now: int) returns (r: Option<string>)
      requires Valid()
      modifies serverOf
      ensures Valid()
      ensures serverOf.entries == old(serverOf.entries)
      ensures r == if username in serverOf.entries then Some(serverOf.entries[username].value) else None
    {
      var got := serverOf.Get(username, now);
      r := if got.Ok? then Some(got.value) else None;
    }
  }
}
