// The per-command helper: reading a command's configuration (defaults when
// it is missing), parsing its permission names, the cached combined
// permission value, sync registration, the cooldown hook and the hook list.
// Discord permission flags are 64-bit masks; the send is an input outcome.
module CommandHelpers {
  import opened Common
  import opened GlobalState
  import opened Users
  import opened WireSchemas

  /** A permission flag set; `NONE` is the empty set. */
  type Permission = bv64

  const NonePermission: Permission := 0

  /** The configured cooldown, as the settings file spells it. */
  datatype Cooldown = Cooldown(windowLength: int, allowedInvocations: int, bucket: string, algorithm: string)

  /** A configured reward role: one id or a list. */
  datatype RoleArg = OneRole(role: int) | RoleList(roles: seq<int>)

  datatype RewardInfo = RewardInfo(mode: string, role: Option<RoleArg>, item: Option<map<string, Items>>)

  /**
   * A command's configuration entry. The flags say which of the optional
   * sections its configuration class has (log channel, reward,
   * synchronization).
   */
  datatype CommandInfo = CommandInfo(permissions: seq<string>, cooldown: Option<Cooldown>,
                                     logged: bool, log: Option<int>,
                                     rewardable: bool, reward: Option<RewardInfo>,
                                     transferable: bool, sync: Option<SyncFlags>)

  /** The reward attributes; all None when the command has no reward. */
  datatype Reward = Reward(mode: Option<string>, roles: Option<seq<int>>, items: Option<map<string, seq<string>>>)

  /**
   * The helper's attributes after construction. `reward` and `sync` are
   * None on the defaults path, where the source never assigns them.
   */
  datatype Config = Config(enabled: bool, permissions: seq<Permission>, cooldown: Option<Cooldown>,
                           logChannel: Option<int>, reward: Option<Reward>, sync: Option<SyncFlags>)

  // ---------------------------------------------------------------------
  // Permissions

  predicate KnownPermission(name: string, table: map<string, Permission>)
  {
    name == "NONE" || name in table
  }

  /** `_parse_permissions`: "NONE" is the empty flag set, any other name is
      looked up; an unknown name fails the whole construction. */
  function ParsePermissions(names: seq<string>, table: map<string, Permission>): (r: Result<seq<Permission>>)
    ensures r.Ok? <==> forall i :: 0 <= i < |names| ==> KnownPermission(names[i], table)
    ensures r.Ok? ==> |r.value| == |names|
    ensures r.Ok? ==> forall i :: 0 <= i < |names| ==>
                        r.value[i] == (if names[i] == "NONE" then NonePermission else table[names[i]])
  {
    if names == [] then Ok([])
    else
      var p := names[0];
      var rest := ParsePermissions(names[1..], table);
      if !KnownPermission(p, table) then Err("unknown permission: " + p)
      else if rest.Err? then rest
      else Ok([if p == "NONE" then NonePermission else table[p]] + rest.value)
  }

  /** The bitwise OR of the flag sets, left to right. */
  function OrAll(ps: seq<Permission>): Permission
  {
    if ps == [] then 0 else OrAll(ps[..|ps| - 1]) | ps[|ps| - 1]
  }

  /** Every flag of every permission is in the combination. */
  lemma {:induction false} OrAllCovers(ps: seq<Permission>, i: int)
    requires 0 <= i < |ps|
    ensures ps[i] | OrAll(ps) == OrAll(ps)
    decreases |ps|
  {
    if i < |ps| - 1 {
      OrAllCovers(ps[..|ps| - 1], i);
    }
  }

  /** The combination has no flag that no permission has. */
  lemma {:induction false} OrAllLeast(ps: seq<Permission>, x: Permission)
    requires forall i :: 0 <= i < |ps| ==> ps[i] | x == x
    ensures OrAll(ps) | x == x
    decreases |ps|
  {
    if ps != [] {
      OrAllLeast(ps[..|ps| - 1], x);
    }
  }

  /** The combination depends only on which flag sets are listed, not on
      their order or repetition. */
  lemma OrAllOrderFree(a: seq<Permission>, b: seq<Permission>)
    requires forall p :: p in a <==> p in b
    ensures OrAll(a) == OrAll(b)
  {
    OrAllSubset(a, b);
    OrAllSubset(b, a);
    var x, y := OrAll(a), OrAll(b);
    assert x | y == y && y | x == x;
  }

  /** Listing only flag sets that another list has adds nothing to its
      combination. */
  lemma OrAllSubset(a: seq<Permission>, b: seq<Permission>)
    requires forall p :: p in a ==> p in b
    ensures OrAll(a) | OrAll(b) == OrAll(b)
  {
    forall i | 0 <= i < |a| ensures a[i] | OrAll(b) == OrAll(b) {
      assert a[i] in a;
      var j :| 0 <= j < |b| && b[j] == a[i];
      OrAllCovers(b, j);
    }
    OrAllLeast(a, OrAll(b));
  }

  /** `get_permissions` before caching: 0 when NONE is listed, else the OR. */
  function PermissionValue(ps: seq<Permission>): (r: Permission)
  {
    if NonePermission in ps then 0 else OrAll(ps)
  }

  /** Listing NONE next to other permissions still gives 0, while without
      it each listed flag is required. */
  lemma NoneOverrides(ps: seq<Permission>, i: int)
    requires 0 <= i < |ps|
    ensures NonePermission in ps ==> PermissionValue(ps) == 0
    ensures NonePermission !in ps ==> ps[i] | PermissionValue(ps) == PermissionValue(ps)
  {
    if NonePermission !in ps {
      OrAllCovers(ps, i);
    }
  }

  // ---------------------------------------------------------------------
  // Construction

  /** The reward attributes: a single role is wrapped into a list, and so is
      a single item command of a server. */
  function RewardOf(i: CommandInfo): (r: Reward)
    ensures !(i.rewardable && i.reward.Some?) ==> r == Reward(None, None, None)
    ensures i.rewardable && i.reward.Some? ==>
              r.mode == Some(i.reward.value.mode)
              && (i.reward.value.role.None? <==> r.roles.None?)
              && (i.reward.value.item.None? <==> r.items.None?)
    ensures r.roles.Some? && i.reward.value.role.value.OneRole? ==> r.roles.value == [i.reward.value.role.value.role]
    ensures r.items.Some? ==> (r.items.value.Keys == i.reward.value.item.value.Keys
              && forall k :: k in r.items.value ==> r.items.value[k] == AsList(i.reward.value.item.value[k]))
  {
    if !(i.rewardable && i.reward.Some?) then Reward(None, None, None)
    else
      var rw := i.reward.value;
      var roles := match rw.role
        case None => None
        case Some(OneRole(x)) => Some([x])
        case Some(RoleList(xs)) => Some(xs);
      var items := if rw.item.None? then None
                   else Some(map k | k in rw.item.value :: AsList(rw.item.value[k]));
      Reward(Some(rw.mode), roles, items)
  }

  /** The sync flags: both off unless the configuration has a synchronization section. */
  function SyncOf(i: CommandInfo): (r: SyncFlags)
    ensures i.transferable && i.sync.Some? ==> r == i.sync.value
    ensures !(i.transferable && i.sync.Some?) ==> r == SyncFlags(false, false)
  {
    if i.transferable && i.sync.Some? then i.sync.value else SyncFlags(false, false)
  }

  /** Whether construction registers the command's sync state: only when at
      least one direction is on. */
  predicate RegistersSync(i: CommandInfo)
  {
    i.transferable && i.sync.Some? && (i.sync.value.minecraftToDiscord || i.sync.value.discordToMinecraft)
  }

  /** The helper's attributes: the disabled defaults for a missing entry,
      an error for an unknown permission name, else the configured values. */
  function Configure(info: Option<CommandInfo>, table: map<string, Permission>): (r: Result<Config>)
    ensures info.None? ==> r == Ok(Config(false, [NonePermission], None, None, None, None))
    ensures info.Some? ==> (r.Ok? <==> ParsePermissions(info.value.permissions, table).Ok?)
    ensures info.Some? && r.Ok? ==>
              r.value.enabled && r.value.permissions == ParsePermissions(info.value.permissions, table).value
              && r.value.cooldown == info.value.cooldown
              && r.value.logChannel == (if info.value.logged then info.value.log else None)
              && r.value.reward == Some(RewardOf(info.value)) && r.value.sync == Some(SyncOf(info.value))
  {
    if info.None? then Ok(Config(false, [NonePermission], None, None, None, None))
    else
      var i := info.value;
      match ParsePermissions(i.permissions, table)
      case Err(e) => Err(e)
      case Ok(ps) =>
        Ok(Config(true, ps, i.cooldown, if i.logged then i.log else None, Some(RewardOf(i)), Some(SyncOf(i))))
  }

  /** A command missing from the configuration needs no permission. */
  lemma DefaultsNeedNoPermission(table: map<string, Permission>)
    ensures Configure(None, table).Ok?
    ensures PermissionValue(Configure(None, table).value.permissions) == 0
    ensures !Configure(None, table).value.enabled
  {
  }

  // ---------------------------------------------------------------------
  // Cooldown and hooks

  const ValidBuckets: seq<string> := ["global", "user", "channel", "guild"]

  /** The cooldown hook built for a configured cooldown. */
  datatype CooldownHook = FixedWindow(windowLength: int, allowed: int, bucket: string)
                        | SlidingWindow(windowLength: int, allowed: int, bucket: string)

  /** `_get_cooldown`: nothing without a cooldown; an error for an unknown
      bucket (checked first) or an unknown algorithm. */
  function GetCooldown(c: Option<Cooldown>): (r: Result<Option<CooldownHook>>)
    ensures c.None? ==> r == Ok(None)
    ensures c.Some? ==> (r.Ok? <==> c.value.bucket in ValidBuckets
                                     && c.value.algorithm in {"fixed_window", "sliding_window"})
    ensures c.Some? && r.Ok? ==> (r.value.Some? && r.value.value.windowLength == c.value.windowLength
              && r.value.value.allowed == c.value.allowedInvocations && r.value.value.bucket == c.value.bucket
              && (r.value.value.FixedWindow? <==> c.value.algorithm == "fixed_window"))
  {
    if c.None? then Ok(None)
    else
      var cd := c.value;
      if cd.bucket !in ValidBuckets then Err("Invalid bucket type: '" + cd.bucket + "'")
      else if cd.algorithm == "fixed_window" then Ok(Some(FixedWindow(cd.windowLength, cd.allowedInvocations, cd.bucket)))
      else if cd.algorithm == "sliding_window" then Ok(Some(SlidingWindow(cd.windowLength, cd.allowedInvocations, cd.bucket)))
      else Err("Unknown cooldown algorithm: " + cd.algorithm)
  }

  /** An execution hook: the cooldown hook or one supplied by the command. */
  datatype Hook = CooldownOf(hook: CooldownHook) | Extra(name: string)

  /** The extra hooks argument: none, one hook, or a list. */
  datatype ExtraHooks = NoHooks | OneHook(hook: string) | HookList(hooks: seq<string>)

  function ExtraNames(a: ExtraHooks): (r: seq<string>)
    ensures a.NoHooks? ==> r == []
    ensures a.OneHook? ==> r == [a.hook]
    ensures a.HookList? ==> r == a.hooks
  {
    match a
    case NoHooks => []
    case OneHook(h) => [h]
    case HookList(hs) => hs
  }

  /** `generate_hooks`: the cooldown hook first when one is configured, then
      the extra hooks in order; a bad cooldown is an error. */
  function GenerateHooks(c: Option<Cooldown>, extra: ExtraHooks): (r: Result<seq<Hook>>)
    ensures r.Err? <==> GetCooldown(c).Err?
    ensures r.Ok? ==> |r.value| == (if c.Some? then 1 else 0) + |ExtraNames(extra)|
    ensures r.Ok? && c.Some? ==> r.value[0] == CooldownOf(GetCooldown(c).value.value)
    ensures r.Ok? ==> forall i :: 0 <= i < |ExtraNames(extra)| ==>
                        r.value[|r.value| - |ExtraNames(extra)| + i] == Extra(ExtraNames(extra)[i])
  {
    match GetCooldown(c)
    case Err(e) => Err(e)
    case Ok(h) =>
      var first := if h.Some? then [CooldownOf(h.value)] else [];
      Ok(first + seq(|ExtraNames(extra)|, i requires 0 <= i < |ExtraNames(extra)| => Extra(ExtraNames(extra)[i])))
  }

  /** Only the configured cooldown is a cooldown hook in the list. */
  lemma AtMostOneCooldownHook(c: Option<Cooldown>, extra: ExtraHooks, i: int)
    requires GenerateHooks(c, extra).Ok? && 0 <= i < |GenerateHooks(c, extra).value|
    requires GenerateHooks(c, extra).value[i].CooldownOf?
    ensures c.Some? && i == 0
  {
  }

  // ---------------------------------------------------------------------
  // The helper object

  /** The `command-executed` message sent to the Minecraft side. */
  datatype SyncMessage = SyncMessage(server: string, commandType: string, executor: string,
                                     args: Option<map<string, string>>)

  class CommandHelper {
    var name: string
    var config: Config
    var cachedPermission: Option<Permission>

    constructor(name: string, config: Config)
      ensures this.name == name && this.config == config && cachedPermission.None?
    {
      this.name := name;
      this.config := config;
      cachedPermission := None;
    }

    /** `get_permissions`: the first computed value is kept. */
    method GetPermissions() returns (r: Permission)
      modifies this
      ensures r == (if old(cachedPermission).Some? then old(cachedPermission).value
                    else PermissionValue(config.permissions))
      ensures cachedPermission == Some(r)
      ensures name == old(name) && config == old(config)
    {
      if cachedPermission.Some? {
        return cachedPermission.value;
      }
      var ps := config.permissions;
      if NonePermission in ps {
        cachedPermission := Some(0);
        return 0;
      }
      var combined: Permission := 0;
      var i := 0;
      while i < |ps|
        invariant 0 <= i <= |ps|
        invariant combined == OrAll(ps[..i])
      {
        assert ps[..i + 1][..i] == ps[..i];
        combined := combined | ps[i];
        i := i + 1;
      }
      assert ps[..i] == ps;
      cachedPermission := Some(combined);
      return combined;
    }

    /** `synchronize_to_minecraft`: nothing is sent when Discord-to-Minecraft
        sync is off; otherwise the message's `server` must be a built-in
        name or one an authenticated plugin advertised (`clients`), and the
        send's outcome is returned. On the defaults path the flag was never
        set and reading it fails. */
    method SynchronizeToMinecraft(server: string, commandType: string, args: Option<map<string, string>>,
                                  clients: seq<ClientEntry>, delivered: bool) returns (r: Result<bool>, sent: Option<SyncMessage>)
      ensures config.sync.None? ==> r.Err? && sent.None?
      ensures config.sync.Some? && !config.sync.value.discordToMinecraft ==> r == Ok(false) && sent.None?
      ensures config.sync.Some? && config.sync.value.discordToMinecraft ==>
                (r.Err? <==> !(server in BuiltinServers || Advertised(clients, server)))
      ensures r.Err? ==> sent.None?
      ensures config.sync.Some? && config.sync.value.discordToMinecraft && r.Ok? ==>
                sent == Some(SyncMessage(server, commandType, "MineBot", args)) && r == Ok(delivered)
    {
      if config.sync.None? {
        return Err("AttributeError: command_synchronization_discord_to_minecraft"), None;
      }
      if !config.sync.value.discordToMinecraft {
        return Ok(false), None;
      }
      var checked := ValidateServer(server, clients);
      if checked.Err? {
        return Err(checked.error), None;
      }
      return Ok(delivered), Some(SyncMessage(server, commandType, "MineBot", args));
    }
  }

  /** `CommandHelper(command)`: the command name is the key's lowercased
      name; a configuration error fails construction before anything is
      registered; sync state is registered when a direction is on. */
  method NewCommandHelper(key: string, info: Option<CommandInfo>, table: map<string, Permission>,
                          commands: CommandState) returns (r: Result<CommandHelper>)
    modifies commands
    ensures r.Err? <==> Configure(info, table).Err?
    ensures r.Ok? ==> fresh(r.value) && r.value.name == Lower(key)
                      && r.value.config == Configure(info, table).value && r.value.cachedPermission.None?
    ensures r.Ok? && info.Some? && RegistersSync(info.value) ==>
              commands.sync == old(commands.sync)[Lower(key) := info.value.sync.value]
    ensures !(r.Ok? && info.Some? && RegistersSync(info.value)) ==> commands.sync == old(commands.sync)
  {
    var c := Configure(info, table);
    if c.Err? {
      return Err(c.error);
    }
    var h := new CommandHelper(Lower(key), c.value);
    if info.Some? && RegistersSync(info.value) {
      var s := info.value.sync.value;
      commands.AddSyncState(Lower(key), s.minecraftToDiscord, s.discordToMinecraft);
    }
    return Ok(h);
  }
}
