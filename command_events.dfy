// The `command-executed` event: a moderation command typed on a Minecraft
// server, replayed on Discord. Member lookups, the ban list and account
// links are given as data; Discord calls and log entries go to the trace.
module CommandEvents {
  import opened Common
  import opened GlobalState
  import opened TempActions
  import opened Scheduling
  import opened TimeUnits

  /** One entry of the guild's ban list. */
  datatype BannedUser = BannedUser(id: int, username: string)

  /**
   * What the handlers can look up: Minecraft name to linked Discord id,
   * Discord users by id (with their usernames), guild members, and the ban
   * list (None when fetching it failed).
   */
  datatype Guild = Guild(linked: map<string, int>, users: map<int, string>, members: set<int>,
                         bans: Option<seq<BannedUser>>)

  /** The event payload: command type, executor's Minecraft name and the argument map. */
  datatype CommandExecuted = CommandExecuted(commandType: string, executor: Option<string>,
                                             args: Option<map<string, string>>)

  /** `_fetch_discord_user`: an empty name, an unlinked name or an unknown Discord id give None. */
  function FetchDiscordUser(g: Guild, name: Option<string>): (r: Option<int>)
    ensures r.Some? <==> name.Some? && |name.value| > 0 && name.value in g.linked && g.linked[name.value] in g.users
    ensures r.Some? ==> r.value == g.linked[name.value]
  {
    if name.None? || |name.value| == 0 || name.value !in g.linked then None
    else if g.linked[name.value] !in g.users then None
    else Some(g.linked[name.value])
  }

  /** The duration a handler reads from its argument: `parse_time_string` with the English unit names. */
  function Duration(s: string, aliases: map<string, Unit>): (r: nat)
  {
    TotalSeconds(Scan(Lower(s), 0), aliases)
  }

  /**
   * A duration written as digits directly followed by a unit name is the
   * number times that unit's length in seconds, whatever the unit's letter
   * case; an unknown unit gives 0.
   */
  lemma DurationOfOnePair(ds: string, u: string, aliases: map<string, Unit>)
    requires |ds| > 0 && forall x :: 0 <= x < |ds| ==> IsDigit(ds[x])
    requires |u| > 0 && forall x :: 0 <= x < |u| ==> IsLetter(u[x])
    ensures Lower(u) in aliases ==> Duration(ds + u, aliases) == DecimalValue(ds) * Seconds(aliases[Lower(u)])
    ensures Lower(u) !in aliases ==> Duration(ds + u, aliases) == 0
  {
    LowerDigitsThenLetters(ds, u);
    ScanOnePair(ds, Lower(u));
    TotalSecondsOne(Pair(DecimalValue(ds), Lower(u)), aliases);
  }

  /** Lower-casing digits followed by letters keeps the digits and leaves letters. */
  lemma LowerDigitsThenLetters(ds: string, u: string)
    requires forall x :: 0 <= x < |ds| ==> IsDigit(ds[x])
    requires forall x :: 0 <= x < |u| ==> IsLetter(u[x])
    ensures Lower(ds + u) == ds + Lower(u)
    ensures forall x :: 0 <= x < |u| ==> IsLetter(Lower(u)[x])
  {
    var s := Lower(ds + u);
    forall x | 0 <= x < |s| ensures s[x] == (ds + Lower(u))[x] {
      if x >= |ds| {
        assert (ds + u)[x] == u[x - |ds|];
      }
    }
  }

  /** The first banned user whose name matches `name` ignoring case. */
  function FirstBanMatch(bans: seq<BannedUser>, name: string): (r: Option<nat>)
    ensures r.Some? ==> r.value < |bans| && EqualsIgnoreCase(bans[r.value].username, name)
                        && forall j :: 0 <= j < r.value ==> !EqualsIgnoreCase(bans[j].username, name)
    ensures r.None? <==> forall j :: 0 <= j < |bans| ==> !EqualsIgnoreCase(bans[j].username, name)
  {
    if |bans| == 0 then None
    else if EqualsIgnoreCase(bans[0].username, name) then Some(0)
    else match FirstBanMatch(bans[1..], name)
      case None => None
      case Some(i) => Some(i + 1)
  }

  /** `_handle_kick`, `_handle_ban` and `_handle_untimeout`: log, then the call; nothing for a non-member. */
  function SimpleAction(w: World, g: Guild, staff: int, reason: string, target: int, p: PunishmentType): (r: World)
    requires p == Kick || p == Ban || p == Untimeout
    ensures target !in g.members ==> r == w
    ensures target in g.members ==>
              r == w.(effects := w.effects + [LogCall(target, p, staff, reason, None, None),
                                              match p
                                              case Kick => KickCall(target, reason)
                                              case Ban => BanCall(target, reason)
                                              case _ => EditCall(target, None)])
  {
    if target !in g.members then w
    else
      var call := match p
        case Kick => KickCall(target, reason)
        case Ban => BanCall(target, reason)
        case _ => EditCall(target, None);
      Emit(Emit(w, LogCall(target, p, staff, reason, None, None)), call)
  }

  /**
   * `_handle_tempban`: a new ban record ending `d` seconds from now, a
   * one-shot unban timer under the member's ban key, the log entry, the ban.
   */
  function Tempban(w: World, g: Guild, staff: int, reason: string, target: int, d: nat, now: int): (r: World)
    requires WorldValid(w)
    ensures WorldValid(r)
    ensures target !in g.members ==> r == w
  {
    if target !in g.members then w
    else
      var (w1, record) := UpsertRecord(w, Record(None, target, Ban, now, now + d, None));
      var w2 := Schedule(w1, (target, Ban), d, TempbanExpiry(record));
      Emit(Emit(w2, LogCall(target, Ban, staff, reason, Some(d), Some(now + d))), BanCall(target, reason))
  }

  /** `_handle_unban`: the first case-insensitive match in the ban list is logged and unbanned. */
  function UnbanByName(w: World, g: Guild, staff: int, reason: string, targetName: string): (r: World)
    ensures g.bans.None? || |g.bans.value| == 0 ==> r == w
    ensures g.bans.Some? ==>
              match FirstBanMatch(g.bans.value, targetName)
              case None => r == w
              case Some(i) =>
                var u := g.bans.value[i].id;
                r == w.(effects := w.effects + [LogCall(u, PunishmentType.Unban, staff, reason, None, None), UnbanCall(u)])
  {
    if g.bans.None? || |g.bans.value| == 0 then w
    else match FirstBanMatch(g.bans.value, targetName)
      case None => w
      case Some(i) =>
        var u := g.bans.value[i].id;
        Emit(Emit(w, LogCall(u, PunishmentType.Unban, staff, reason, None, None)), UnbanCall(u))
  }

  /**
   * `_apply_timeout`: the log entry first; then one edit to the end when it
   * fits under the ceiling, else the extended path — a record carrying the
   * real end and the first refresh time, an edit to that refresh time, and
   * (once the edit succeeded) the refresh timer under the member's timeout key.
   */
  function ApplyTimeout(w: World, staff: int, reason: string, target: int, d: nat, now: int, outcome: Outcome): (r: World)
    requires WorldValid(w)
    ensures WorldValid(r)
  {
    var w1 := Emit(w, LogCall(target, Timeout, staff, reason, Some(d), Some(now + d)));
    if d > MaxTimeout then
      var (w2, record) := UpsertRecord(w1, Record(None, target, Timeout, now, now + d, Some(now + MaxTimeout)));
      var w3 := Emit(w2, EditCall(target, Some(now + MaxTimeout)));
      if outcome != Succeeded then w3
      else Schedule(w3, (target, Timeout), MaxTimeout, TimeoutRefresh(record, now + MaxTimeout))
    else Emit(w1, EditCall(target, Some(now + d)))
  }

  /** A timeout within the ceiling is one log entry and one edit to its exact end; nothing is stored or scheduled. */
  lemma ShortTimeoutSingleEdit(w: World, staff: int, reason: string, target: int, d: nat, now: int, outcome: Outcome)
    requires WorldValid(w) && d <= MaxTimeout
    ensures ApplyTimeout(w, staff, reason, target, d, now, outcome)
            == w.(effects := w.effects + [LogCall(target, Timeout, staff, reason, Some(d), Some(now + d)), EditCall(target, Some(now + d))])
  {
  }

  /**
   * A longer timeout stores its real end, applies one ceiling's worth, and
   * registers the refresh timer due when that first period ends.
   */
  lemma ExtendedTimeoutArmed(w: World, staff: int, reason: string, target: int, d: nat, now: int)
    requires WorldValid(w) && d > MaxTimeout
    ensures var r := ApplyTimeout(w, staff, reason, target, d, now, Succeeded);
            var key := (target, Timeout);
            var job := r.timers[|w.timers|].job;
            |r.timers| == |w.timers| + 1 && key in r.tasks && r.tasks[key] == |w.timers|
            && r.timers[|w.timers|].delay == MaxTimeout
            && job.TimeoutRefresh? && job.refreshTime == now + MaxTimeout
            && StoredRecord(job.record) && job.record.userId == target
            && job.record.expiresAt == now + d && job.record.refreshAt == Some(now + MaxTimeout)
            && job.record.id.value in r.store.rows && r.store.rows[job.record.id.value] == job.record
            && r.effects == w.effects + [LogCall(target, Timeout, staff, reason, Some(d), Some(now + d)),
                                         EditCall(target, Some(now + MaxTimeout))]
  {
  }

  /**
   * The extended path and the chain it arms, each timer firing on time,
   * edit the member to `now + MaxTimeout` and then to every end of the
   * chain; the ends advance by at most the ceiling and the last is `now + d`.
   */
  lemma {:induction false} ExtendedTimeoutCoversDuration(w: World, staff: int, reason: string, target: int, d: nat, now: int)
    requires WorldValid(w) && d > MaxTimeout
    ensures var r := ApplyTimeout(w, staff, reason, target, d, now, Succeeded);
            var job := r.timers[|w.timers|].job;
            job.TimeoutRefresh? && StoredRecord(job.record)
            && job.record.userId == target && job.record.expiresAt == now + d && job.refreshTime == now + MaxTimeout
            && ChainCovers(r, job, target, now + d, now + MaxTimeout,
                           w.effects + [LogCall(target, Timeout, staff, reason, Some(d), Some(now + d)), EditCall(target, Some(now + MaxTimeout))])
  {
    ArmedJob(w, staff, reason, target, d, now);
    var r := ApplyTimeout(w, staff, reason, target, d, now, Succeeded);
    ChainFromArmed(r, r.timers[|w.timers|].job, target, now + d, now + MaxTimeout,
                   w.effects + [LogCall(target, Timeout, staff, reason, Some(d), Some(now + d)), EditCall(target, Some(now + MaxTimeout))]);
  }

  /** The job the extended path arms, and the calls made before it fires. */
  lemma ArmedJob(w: World, staff: int, reason: string, target: int, d: nat, now: int)
    requires WorldValid(w) && d > MaxTimeout
    ensures var r := ApplyTimeout(w, staff, reason, target, d, now, Succeeded);
            |r.timers| > |w.timers|
            && var job := r.timers[|w.timers|].job;
               job.TimeoutRefresh? && StoredRecord(job.record)
               && job.record.userId == target && job.record.expiresAt == now + d && job.refreshTime == now + MaxTimeout
               && r.effects == w.effects + [LogCall(target, Timeout, staff, reason, Some(d), Some(now + d)), EditCall(target, Some(now + MaxTimeout))]
  {
    ExtendedTimeoutArmed(w, staff, reason, target, d, now);
  }

  /**
   * Firing the chain that `job` starts edits the member to each end of the
   * chain after the calls in `before`; the first end lies within one
   * ceiling of `rt` and the last is the expiry.
   */
  predicate ChainCovers(r: World, job: Job, target: int, expiresAt: int, rt: int, before: seq<Effect>)
    requires WorldValid(r) && job.TimeoutRefresh? && StoredRecord(job.record)
    requires job.record.expiresAt == expiresAt && job.refreshTime == rt && rt < expiresAt
  {
    var ends := ChainEnds(expiresAt, rt);
    FireChain(r, job.record, job.refreshTime).effects == before + EditsTo(target, ends)
    && |ends| > 0 && ends[|ends| - 1] == expiresAt
    && rt < ends[0] <= rt + MaxTimeout
  }

  /** An armed refresh job's chain covers the time up to the record's expiry. */
  lemma ChainFromArmed(r: World, job: Job, target: int, expiresAt: int, rt: int, before: seq<Effect>)
    requires WorldValid(r) && job.TimeoutRefresh? && StoredRecord(job.record) && r.effects == before
    requires job.record.userId == target && job.record.expiresAt == expiresAt && job.refreshTime == rt && rt < expiresAt
    ensures ChainCovers(r, job, target, expiresAt, rt, before)
  {
    FireChainEdits(r, job.record, job.refreshTime);
    ChainEndsTile(expiresAt, rt);
  }

  /** A temporary ban whose timer fires and unbans leaves the table as it was and forgets the task. */
  lemma TempbanThenExpiry(w: World, g: Guild, staff: int, reason: string, target: int, d: nat, now: int)
    requires WorldValid(w) && target in g.members
    ensures var r := Tempban(w, g, staff, reason, target, d, now);
            var t := r.timers[|w.timers|];
            t.key == (target, Ban) && t.delay == d && t.job.TempbanExpiry?
            && t.job.record.expiresAt == now + d
            && var after := RunJob(r, t.job, now + d, Succeeded);
               after.store.rows == w.store.rows && (target, Ban) !in after.tasks
               && after.effects == w.effects + [LogCall(target, Ban, staff, reason, Some(d), Some(now + d)), BanCall(target, reason), UnbanCall(target)]
  {
    var (w1, record) := UpsertRecord(w, Record(None, target, Ban, now, now + d, None));
    assert record.id.value !in w.store.rows;
    assert w1.store.rows - {record.id.value} == w.store.rows;
    var w2 := Schedule(w1, (target, Ban), d, TempbanExpiry(record));
    var r := Tempban(w, g, staff, reason, target, d, now);
    assert r == w2.(effects := w.effects + [LogCall(target, Ban, staff, reason, Some(d), Some(now + d)), BanCall(target, reason)]);
    assert r.timers[|w.timers|] == Timer((target, Ban), d, TempbanExpiry(record));
    TempbanExpiryRuns(r, record, now + d);
    var t := r.timers[|w.timers|];
    assert RunJob(r, t.job, now + d, Succeeded) == RunJob(r, TempbanExpiry(record), now + d, Succeeded);
  }

  /** A successful temporary-ban timer unbans, deletes its row and forgets its task. */
  lemma TempbanExpiryRuns(r: World, record: TempAction, now: int)
    requires WorldValid(r) && record.id.Some?
    ensures var after := RunJob(r, TempbanExpiry(record), now, Succeeded);
            after.store.rows == r.store.rows - {record.id.value}
            && (record.userId, Ban) !in after.tasks
            && after.effects == r.effects + [UnbanCall(record.userId)]
  {
  }

  /** The command names with a handler; "tempban" is a plain string key beside the enum values. */
  predicate HasHandler(commandType: string)
  {
    commandType == "kick" || commandType == "ban" || commandType == "tempban"
    || commandType == "unban" || commandType == "timeout" || commandType == "untimeout"
  }

  /** The command whose Minecraft-to-Discord flag gates an event: a temporary ban is checked as a ban. */
  function SyncName(commandType: string): (r: string)
    ensures commandType == "tempban" <==> r == "ban" && commandType != "ban"
    ensures commandType != "tempban" ==> r == commandType
  {
    if commandType == "tempban" then "ban" else commandType
  }

  /** `args.get(key)`, with a missing map read as the empty one. */
  function Arg(e: CommandExecuted, key: string): (r: Option<string>)
    ensures r.Some? <==> e.args.Some? && key in e.args.value
    ensures r.Some? ==> r.value == e.args.value[key]
  {
    if e.args.Some? && key in e.args.value then Some(e.args.value[key]) else None
  }

  /** Present and non-empty: Python truthiness of an optional string. */
  predicate Given(s: Option<string>)
  {
    s.Some? && |s.value| > 0
  }

  /**
   * The reason every handler logs and passes to Discord: the `reason`
   * argument when given and non-empty, else the default-locale no-reason text.
   */
  function CommandReason(e: CommandExecuted, noReason: string): (r: string)
    ensures Given(Arg(e, "reason")) ==> r == e.args.value["reason"]
    ensures !Given(Arg(e, "reason")) ==> r == noReason
  {
    GetReason(Arg(e, "reason"), None, noReason, noReason).0
  }

  /** `command_executed`: the gates, then the handler for the command type. */
  function HandleCommandExecuted(w: World, commands: CommandState, g: Guild, e: CommandExecuted,
                                 aliases: map<string, Unit>, noReason: string, now: int, outcome: Outcome): (r: World)
    reads commands
    requires WorldValid(w)
    ensures WorldValid(r)
    ensures !commands.IsMinecraftToDiscord(SyncName(e.commandType)) ==> r == w
    ensures FetchDiscordUser(g, e.executor).None? ==> r == w
    ensures !Given(Arg(e, "target")) || FetchDiscordUser(g, Arg(e, "target")).None? ==> r == w
    ensures !HasHandler(e.commandType) ==> r == w
    ensures (e.commandType == "tempban" || e.commandType == "timeout") && !Given(Arg(e, "duration")) ==> r == w
    ensures e.commandType != "tempban" && e.commandType != "timeout" ==> r.store == w.store && r.tasks == w.tasks
    ensures commands.IsMinecraftToDiscord(SyncName(e.commandType)) && FetchDiscordUser(g, e.executor).Some?
            && Given(Arg(e, "target")) && FetchDiscordUser(g, Arg(e, "target")).Some? ==>
              var staff := FetchDiscordUser(g, e.executor).value;
              var uid := FetchDiscordUser(g, Arg(e, "target")).value;
              var reason := CommandReason(e, noReason);
              (e.commandType == "tempban" && Given(Arg(e, "duration")) ==>
                 r == Tempban(w, g, staff, reason, uid, Duration(Arg(e, "duration").value, aliases), now))
              && (e.commandType == "timeout" && Given(Arg(e, "duration")) ==>
                    r == if uid in g.members then ApplyTimeout(w, staff, reason, uid, Duration(Arg(e, "duration").value, aliases), now, outcome)
                         else w)
              && (e.commandType == "unban" ==> r == UnbanByName(w, g, staff, reason, g.users[uid]))
              && (e.commandType == "kick" ==> r == SimpleAction(w, g, staff, reason, uid, Kick))
              && (e.commandType == "ban" ==> r == SimpleAction(w, g, staff, reason, uid, Ban))
              && (e.commandType == "untimeout" ==> r == SimpleAction(w, g, staff, reason, uid, Untimeout))
  {
    if !commands.IsMinecraftToDiscord(SyncName(e.commandType)) then w
    else
      var executor := FetchDiscordUser(g, e.executor);
      var rawTarget := Arg(e, "target");
      var duration := Arg(e, "duration");
      if executor.None? || !Given(rawTarget) then w
      else
        var target := FetchDiscordUser(g, rawTarget);
        if target.None? || !HasHandler(e.commandType) then w
        else
          var staff := executor.value;
          var uid := target.value;
          var reason := CommandReason(e, noReason);
          if e.commandType == "tempban" then
            if !Given(duration) then w else Tempban(w, g, staff, reason, uid, Duration(duration.value, aliases), now)
          else if e.commandType == "timeout" then
            if !Given(duration) || uid !in g.members then w
            else ApplyTimeout(w, staff, reason, uid, Duration(duration.value, aliases), now, outcome)
          else if e.commandType == "unban" then UnbanByName(w, g, staff, reason, g.users[uid])
          else if e.commandType == "kick" then SimpleAction(w, g, staff, reason, uid, Kick)
          else if e.commandType == "ban" then SimpleAction(w, g, staff, reason, uid, Ban)
          else SimpleAction(w, g, staff, reason, uid, Untimeout)
  }

  /** A temporary ban is refused when bans are not synced to Discord, whatever "tempban"'s own flag says. */
  lemma TempbanFollowsBanFlag(w: World, commands: CommandState, g: Guild, e: CommandExecuted,
                              aliases: map<string, Unit>, noReason: string, now: int, outcome: Outcome)
    requires WorldValid(w) && e.commandType == "tempban"
    requires !commands.IsMinecraftToDiscord("ban")
    ensures HandleCommandExecuted(w, commands, g, e, aliases, noReason, now, outcome) == w
  {
  }

  /**
   * A kick typed on Minecraft by a linked player against a linked guild
   * member is logged under the executor with the typed reason (or the
   * no-reason text), and the kick carries the same reason.
   */
  lemma KickCarriesReason(w: World, commands: CommandState, g: Guild, e: CommandExecuted,
                          aliases: map<string, Unit>, noReason: string, now: int, outcome: Outcome)
    requires WorldValid(w) && e.commandType == "kick" && commands.IsMinecraftToDiscord("kick")
    requires FetchDiscordUser(g, e.executor).Some? && Given(Arg(e, "target"))
    requires FetchDiscordUser(g, Arg(e, "target")).Some? && FetchDiscordUser(g, Arg(e, "target")).value in g.members
    ensures var r := HandleCommandExecuted(w, commands, g, e, aliases, noReason, now, outcome);
            var uid := FetchDiscordUser(g, Arg(e, "target")).value;
            var reason := if Given(Arg(e, "reason")) then e.args.value["reason"] else noReason;
            r.effects == w.effects + [LogCall(uid, Kick, FetchDiscordUser(g, e.executor).value, reason, None, None),
                                      KickCall(uid, reason)]
  {
  }
}
