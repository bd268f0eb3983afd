// The audit-log listeners for bans, unbans and timeouts made on Discord:
// which events they take, when a new punishment-log row is written (the
// 120-second de-duplication window), and the command they send to the
// Minecraft servers. Lookups are given as data; the reaction is returned.
module ModerationEvents {
  import opened Common
  import opened GlobalState
  import opened TempActions
  import opened Scheduling
  import opened TimeUnits
  import opened CommandEvents

  /** Seconds within which an audit event and a log row count as the same punishment. */
  const DuplicateWindow: int := 120

  datatype AuditAction = MemberBanAdd | MemberBanRemove | MemberUpdate | OtherAction

  /** One change of an audit entry; only timestamp-valued changes matter here. */
  datatype Change = Change(key: string, newValue: Option<int>)

  datatype AuditEntry = AuditEntry(targetId: Option<int>, action: AuditAction, staffId: Option<int>,
                                   reason: Option<string>, createdAt: int, changes: seq<Change>)

  /** A punishment-log row as the listeners read and write it. */
  datatype LogEntry = LogEntry(userId: int, ptype: PunishmentType, reason: string, staffId: int,
                               duration: Option<int>, expiresAt: Option<int>, createdAt: int)

  /** The `command-executed` message the bot sends to the servers. */
  datatype SyncCommand = SyncCommand(server: string, commandType: string, executor: string, args: map<string, string>)

  /**
   * What a listener did: the log row it wrote, the message it sent, and
   * whether it posted to the log channel.
   */
  datatype Reaction = Reaction(created: Option<LogEntry>, sync: Option<SyncCommand>, announced: bool)

  /** What a listener can look up besides the log: the sync flag, the target's linked Minecraft name, fetchable users. */
  datatype Lookups = Lookups(syncOn: bool, minecraftName: Option<string>, fetchable: set<int>)

  function Abs(x: int): (r: nat)
    ensures r == x || r == -x
  {
    if x < 0 then -x else x
  }

  /** Strictly less than the window apart, in either order. */
  predicate Recent(eventTime: int, logTime: int)
  {
    Abs(eventTime - logTime) < DuplicateWindow
  }

  /** The duration argument of a sync message: `f"{d}s"`. */
  function DurationArg(d: int): string
  {
    IntString(d) + "s"
  }

  /** The row a listener reuses or writes: a recent latest row of the type is reused. */
  function LogFor(latest: Option<LogEntry>, eventTime: int, row: LogEntry): (r: (Option<LogEntry>, LogEntry))
    ensures r.0.Some? <==> latest.None? || !Recent(eventTime, latest.value.createdAt)
    ensures r.0.Some? ==> r.0.value == row && r.1 == row
    ensures r.0.None? ==> r.1 == latest.value
  {
    if latest.None? || !Recent(eventTime, latest.value.createdAt) then (Some(row), row) else (None, latest.value)
  }

  /** The ban sync: `tempban` with the duration when the row has one, else `ban`. */
  function BanSync(name: string, p: LogEntry): (r: SyncCommand)
    ensures r.server == "all" && r.executor == "MineBot"
    ensures r.commandType == (if p.duration.Some? then "tempban" else "ban")
    ensures r.args.Keys == (if p.duration.Some? then {"target", "reason", "duration"} else {"target", "reason"})
    ensures r.args["target"] == name && r.args["reason"] == p.reason
    ensures p.duration.Some? ==> r.args["duration"] == DurationArg(p.duration.value)
  {
    var args := map["target" := name, "reason" := p.reason];
    if p.duration.Some? then SyncCommand("all", "tempban", "MineBot", args["duration" := DurationArg(p.duration.value)])
    else SyncCommand("all", "ban", "MineBot", args)
  }

  /**
   * The shared tail of the three listeners: with sync on and no linked
   * Minecraft name nothing more happens; otherwise the message (if sync is
   * on) and the log-channel post (if both users can be fetched).
   */
  function Finish(created: Option<LogEntry>, p: LogEntry, target: int, look: Lookups, msg: string -> SyncCommand): (r: Reaction)
    ensures r.created == created
    ensures r.sync.Some? <==> look.syncOn && Given(look.minecraftName)
    ensures r.sync.Some? ==> r.sync.value == msg(look.minecraftName.value)
    ensures r.announced <==> (!look.syncOn || Given(look.minecraftName)) && target in look.fetchable && p.staffId in look.fetchable
  {
    if look.syncOn && !Given(look.minecraftName) then Reaction(created, None, false)
    else
      var sync := if look.syncOn then Some(msg(look.minecraftName.value)) else None;
      Reaction(created, sync, target in look.fetchable && p.staffId in look.fetchable)
  }

  /** `on_ban_create`. */
  function OnBanCreate(e: AuditEntry, latest: Option<LogEntry>, noReason: string, now: int, look: Lookups): (r: Reaction)
    ensures e.targetId.None? || e.action != MemberBanAdd || e.staffId.None? ==> r == Reaction(None, None, false)
    ensures e.targetId.Some? && e.action == MemberBanAdd && e.staffId.Some? ==>
              (r.created.Some? <==> latest.None? || !Recent(e.createdAt, latest.value.createdAt))
              && (r.created.Some? ==> r.created.value.ptype == Ban && r.created.value.userId == e.targetId.value
                                      && r.created.value.staffId == e.staffId.value && r.created.value.duration.None?)
              && (r.sync.Some? <==> look.syncOn && Given(look.minecraftName))
              && (r.sync.Some? ==> r.sync.value == BanSync(look.minecraftName.value, if r.created.Some? then r.created.value else latest.value))
  {
    if e.targetId.None? || e.action != MemberBanAdd || e.staffId.None? then Reaction(None, None, false)
    else
      var target := e.targetId.value;
      var reason := GetReason(e.reason, None, noReason, noReason).1;
      var (created, p) := LogFor(latest, e.createdAt, LogEntry(target, Ban, reason, e.staffId.value, None, None, now));
      Finish(created, p, target, look, name => BanSync(name, p))
  }

  /** `cancel_task` on the registry: the task is cancelled and its entry dropped. */
  function CancelTask(w: World, key: TaskKey): (r: World)
    requires WorldValid(w)
    ensures WorldValid(r)
    ensures key !in r.tasks && (forall k :: k != key ==> (k in r.tasks <==> k in w.tasks) && (k in w.tasks ==> r.tasks[k] == w.tasks[k]))
    ensures r.cancelled == (if key in w.tasks then w.cancelled + {w.tasks[key]} else w.cancelled)
    ensures r.store == w.store && r.timers == w.timers && r.effects == w.effects
  {
    if key in w.tasks then w.(tasks := w.tasks - {key}, cancelled := w.cancelled + {w.tasks[key]}) else w
  }

  /**
   * `on_ban_delete`: the member's newest temporary ban record is deleted
   * and its task cancelled, then the unban row and sync as for a ban.
   */
  function OnBanDelete(w: World, e: AuditEntry, latest: Option<LogEntry>, noReason: string, now: int, look: Lookups): (r: (World, Reaction))
    requires WorldValid(w)
    ensures WorldValid(r.0)
    ensures e.targetId.None? || e.action != MemberBanRemove || e.staffId.None? ==> r == (w, Reaction(None, None, false))
    ensures e.targetId.Some? && e.action == MemberBanRemove && e.staffId.Some? ==>
              var target := e.targetId.value;
              (r.1.created.Some? <==> latest.None? || !Recent(e.createdAt, latest.value.createdAt))
              && (r.1.created.Some? ==> r.1.created.value.ptype == PunishmentType.Unban && r.1.created.value.userId == target)
              && (r.1.sync.Some? <==> look.syncOn && Given(look.minecraftName))
              && (r.1.sync.Some? ==> r.1.sync.value == SyncCommand("all", "unban", "MineBot",
                                       map["target" := look.minecraftName.value,
                                           "reason" := (if r.1.created.Some? then r.1.created.value else latest.value).reason]))
              && var temp := Latest(w.store, Some(target), Some(TypeValue(Ban)));
                 (temp.None? ==> r.0 == w)
                 && (temp.Some? ==> temp.value.id.Some? && r.0.store.rows == w.store.rows - {temp.value.id.value}
                                    && (target, Ban) !in r.0.tasks
                                    && ((target, Ban) in w.tasks ==> w.tasks[(target, Ban)] in r.0.cancelled)
                                    && r.0.timers == w.timers && r.0.effects == w.effects)
  {
    if e.targetId.None? || e.action != MemberBanRemove || e.staffId.None? then (w, Reaction(None, None, false))
    else
      var target := e.targetId.value;
      var temp := Latest(w.store, Some(target), Some(TypeValue(Ban)));
      LatestIsNewest(w.store, Some(target), Some(TypeValue(Ban)));
      var w1 := if temp.Some? then CancelTask(DeleteRecord(w, temp.value.id.value), (target, Ban)) else w;
      var reason := GetReason(e.reason, None, noReason, noReason).1;
      var (created, p) := LogFor(latest, e.createdAt, LogEntry(target, PunishmentType.Unban, reason, e.staffId.value, None, None, now));
      (w1, Finish(created, p, target, look, name => SyncCommand("all", "unban", "MineBot", map["target" := name, "reason" := p.reason])))
  }

  /** The audit entry sets a timeout: its first change is `communication_disabled_until` with a value. */
  predicate SetsTimeout(e: AuditEntry)
  {
    |e.changes| > 0 && e.changes[0].key == "communication_disabled_until" && e.changes[0].newValue.Some?
  }

  /** A pending timeout record made more than the window away from the event: the edit is taken as the bot's renewal. */
  predicate IsRenewal(s: Store, target: int, eventTime: int)
    requires StoreValid(s)
  {
    var temp := Latest(s, Some(target), Some(TypeValue(Timeout)));
    temp.Some? && Abs(eventTime - temp.value.createdAt) > DuplicateWindow
  }

  /** `on_member_update`. */
  function OnMemberUpdate(s: Store, e: AuditEntry, latest: Option<LogEntry>, noReason: string, now: int, look: Lookups): (r: Reaction)
    requires StoreValid(s)
    ensures e.targetId.None? || e.action != MemberUpdate || !SetsTimeout(e) || e.staffId.None? ==> r == Reaction(None, None, false)
    ensures e.targetId.Some? && IsRenewal(s, e.targetId.value, e.createdAt) ==> r == Reaction(None, None, false)
    ensures e.targetId.Some? && e.action == MemberUpdate && SetsTimeout(e) && e.staffId.Some? && !IsRenewal(s, e.targetId.value, e.createdAt) ==>
              var until := e.changes[0].newValue.value;
              (r.created.Some? <==> latest.None? || !Recent(e.createdAt, latest.value.createdAt))
              && (r.created.Some? ==> r.created.value.ptype == Timeout && r.created.value.duration == Some(until - now)
                                      && r.created.value.expiresAt == Some(until))
              && var p := if r.created.Some? then r.created.value else latest.value;
                 (r.sync.Some? <==> p.duration.Some? && look.syncOn && Given(look.minecraftName))
                 && (r.sync.Some? ==> r.sync.value == SyncCommand("all", "timeout", "MineBot",
                                          map["target" := look.minecraftName.value, "duration" := DurationArg(p.duration.value), "reason" := p.reason]))
  {
    if e.targetId.None? || e.action != MemberUpdate || !SetsTimeout(e) || e.staffId.None? then Reaction(None, None, false)
    else
      var target := e.targetId.value;
      if IsRenewal(s, target, e.createdAt) then Reaction(None, None, false)
      else
        var until := e.changes[0].newValue.value;
        var reason := GetReason(e.reason, None, noReason, noReason).1;
        var (created, p) := LogFor(latest, e.createdAt, LogEntry(target, Timeout, reason, e.staffId.value, Some(until - now), Some(until), now));
        if p.duration.None? then Reaction(created, None, false)
        else
          Finish(created, p, target, look,
                 name => SyncCommand("all", "timeout", "MineBot",
                                     map["target" := name, "duration" := DurationArg(p.duration.value), "reason" := p.reason]))
  }

  /**
   * The duration a sync message carries reads back, in the bot's own
   * duration syntax, as the logged number of seconds (for a non-negative
   * duration, with "s" naming seconds).
   */
  lemma {:induction false} SyncDurationParses(d: nat, aliases: map<string, Unit>)
    requires "s" in aliases && aliases["s"] == Second
    ensures Duration(DurationArg(d), aliases) == d
  {
    var ds := DecimalString(d);
    var s := ds + "s";
    LowerDigitsS(ds);
    ScanDigitsS(ds);
    var ps := Scan(s, 0);
    assert ps == [Pair(d, "s")];
    assert ps[..0] == [];
    assert DurationArg(d) == s;
    assert Duration(DurationArg(d), aliases) == TotalSeconds(ps, aliases);
    assert Seconds(Second) == 1;
    assert TotalSeconds(ps, aliases) == TotalSeconds([], aliases) + d * Seconds(Second);
  }

  /** Digits followed by `s` are already lower case. */
  lemma LowerDigitsS(ds: string)
    requires forall x :: 0 <= x < |ds| ==> IsDigit(ds[x])
    ensures Lower(ds + "s") == ds + "s"
  {
    var s := ds + "s";
    forall i | 0 <= i < |s| ensures LowerChar(s[i]) == s[i] {
      if i < |ds| { assert IsDigit(s[i]); } else { assert s[i] == 's'; }
    }
  }

  /** Digits followed by `s` scan as one pair: the number and the unit `s`. */
  lemma ScanDigitsS(ds: string)
    requires |ds| > 0 && forall x :: 0 <= x < |ds| ==> IsDigit(ds[x])
    ensures Scan(ds + "s", 0) == [Pair(DecimalValue(ds), "s")]
  {
    var s := ds + "s";
    assert IsDigit(s[0]);
    var j := DigitRun(s, 0);
    assert s[|ds|] == 's';
    assert forall x :: 0 <= x < |ds| ==> s[x] == ds[x];
    assert j == |ds|;
    assert SpaceRun(s, j) == j by { assert !IsSpace(s[j]); }
    assert IsAsciiLetter(s[j]);
    assert LetterRun(s, j) == |s|;
    assert s[0..j] == ds;
    assert |s| == j + 1 && s[j..|s|] == [s[j]];
    assert s[j..|s|] == "s";
    assert Scan(s, 0) == [Pair(DecimalValue(ds), "s")] + Scan(s, |s|);
  }

  /**
   * The bot's own refresh edit is not taken as a renewal: the refresh
   * stores its record with `created_at` reset to the refresh time just
   * before the edit, so an edit audited within the window of it finds a
   * fresh record, and a new 28-day timeout row is written when the last
   * timeout row is older than the window.
   */
  lemma RefreshEditLoggedAgain(w: World, p: TempAction, rt: int, e: AuditEntry, latest: LogEntry, noReason: string, look: Lookups)
    requires WorldValid(w) && StoredRecord(p) && p.expiresAt - rt > MaxTimeout
    requires forall k :: k in w.store.rows && k != p.id.value ==> !(w.store.rows[k].userId == p.userId && w.store.rows[k].ptype == TypeValue(Timeout))
    requires e == AuditEntry(Some(p.userId), MemberUpdate, Some(1), None, rt,
                             [Change("communication_disabled_until", Some(rt + MaxTimeout))])
    requires latest.createdAt <= rt - DuplicateWindow
    ensures var s := RefreshTimeout(w, p, rt, rt, Succeeded).store;
            var r := OnMemberUpdate(s, e, Some(latest), noReason, rt, look);
            r.created.Some? && r.created.value.duration == Some(MaxTimeout)
  {
    var s := RefreshTimeout(w, p, rt, rt, Succeeded).store;
    RefreshedRow(w, p, rt);
    OnlyRowNotRenewal(s, p.id.value, p.userId, rt);
    CeilingEditLogged(s, p.userId, rt, e, latest, noReason, look);
  }

  /** A 28-day timeout edit that is no renewal, with the last timeout log older than the window, is logged anew. */
  lemma CeilingEditLogged(s: Store, user: int, rt: int, e: AuditEntry, latest: LogEntry, noReason: string, look: Lookups)
    requires StoreValid(s) && !IsRenewal(s, user, rt)
    requires e == AuditEntry(Some(user), MemberUpdate, Some(1), None, rt,
                             [Change("communication_disabled_until", Some(rt + MaxTimeout))])
    requires latest.createdAt <= rt - DuplicateWindow
    ensures var r := OnMemberUpdate(s, e, Some(latest), noReason, rt, look);
            r.created.Some? && r.created.value.duration == Some(MaxTimeout)
  {
  }

  /** After a long refresh the member's record is the only timeout row of theirs, created at the refresh time. */
  lemma RefreshedRow(w: World, p: TempAction, rt: int)
    requires WorldValid(w) && StoredRecord(p) && p.expiresAt - rt > MaxTimeout
    requires forall k :: k in w.store.rows && k != p.id.value ==> !(w.store.rows[k].userId == p.userId && w.store.rows[k].ptype == TypeValue(Timeout))
    ensures var s := RefreshTimeout(w, p, rt, rt, Succeeded).store;
            var m := (Some(p.userId), Some(TypeValue(Timeout)));
            StoreValid(s) && p.id.value in s.rows && s.rows[p.id.value].createdAt == rt
            && Matches(s.rows[p.id.value], m.0, m.1)
            && forall k :: k in s.rows && k != p.id.value ==> !Matches(s.rows[k], m.0, m.1)
  {
    RefreshStep(w, p, rt);
  }

  /** A store whose only matching timeout row was created at `rt` makes an edit at `rt` no renewal. */
  lemma OnlyRowNotRenewal(s: Store, id: int, user: int, rt: int)
    requires StoreValid(s) && id in s.rows && s.rows[id].createdAt == rt
    requires Matches(s.rows[id], Some(user), Some(TypeValue(Timeout)))
    requires forall k :: k in s.rows && k != id ==> !Matches(s.rows[k], Some(user), Some(TypeValue(Timeout)))
    ensures !IsRenewal(s, user, rt)
  {
    LatestIsNewest(s, Some(user), Some(TypeValue(Timeout)));
  }
}
