// The shared ground of temporary punishments: the calls made to Discord (as
// an effect trace), the one-shot timers registered in the task registry, and
// the bodies those timers run when they fire. Times are integer seconds.
module Scheduling {
  import opened Common
  import opened GlobalState
  import opened TempActions

  /** Discord's ceiling for one timeout edit: 28 days. */
  const MaxTimeout: int := 2419200

  /** How a Discord call ended. */
  datatype Outcome = Succeeded | NotFound | Failed

  /** The enum's string values, as stored in `punishment_type`. */
  function TypeValue(p: PunishmentType): (r: string)
    ensures |r| > 0 && Lower(r) == r
  {
    var r := match p
      case Kick => "kick"
      case Ban => "ban"
      case Unban => "unban"
      case Timeout => "timeout"
      case Untimeout => "untimeout";
    LowerWord(r);
    r
  }

  lemma LowerWord(v: string)
    requires forall i :: 0 <= i < |v| ==> IsLowerChar(v[i])
    ensures Lower(v) == v
  {
  }

  /** The enum member's name: its value upper-cased. */
  function MemberName(p: PunishmentType): (r: string)
  {
    match p
    case Kick => "KICK"
    case Ban => "BAN"
    case Unban => "UNBAN"
    case Timeout => "TIMEOUT"
    case Untimeout => "UNTIMEOUT"
  }

  lemma MemberNameIsUpperValue(p: PunishmentType)
    ensures Upper(TypeValue(p)) == MemberName(p)
  {
    match p
    case Kick => UpperWord("kick", "KICK");
    case Ban => UpperWord("ban", "BAN");
    case Unban => UpperWord("unban", "UNBAN");
    case Timeout => UpperWord("timeout", "TIMEOUT");
    case Untimeout => UpperWord("untimeout", "UNTIMEOUT");
  }

  lemma UpperWord(v: string, u: string)
    requires |v| == |u|
    requires forall i :: 0 <= i < |v| ==> IsLowerChar(v[i]) && v[i] as int - 32 == u[i] as int
    ensures Upper(v) == u
  {
  }

  /** Attribute lookup on the enum by member name. */
  function TypeByName(name: string): (r: Option<PunishmentType>)
    ensures r.Some? ==> MemberName(r.value) == name
    ensures r.None? ==> forall p :: MemberName(p) != name
  {
    if name == "KICK" then Some(Kick)
    else if name == "BAN" then Some(Ban)
    else if name == "UNBAN" then Some(Unban)
    else if name == "TIMEOUT" then Some(Timeout)
    else if name == "UNTIMEOUT" then Some(Untimeout)
    else None
  }

  /** A stored type value finds its enum member again, whatever its letter case. */
  lemma TypeValueRoundTrip(p: PunishmentType, stored: string)
    requires Lower(stored) == TypeValue(p)
    ensures TypeByName(Upper(stored)) == Some(p)
  {
    UpperOfLower(stored);
    MemberNameIsUpperValue(p);
  }

  /**
   * `get_reason`: a non-empty reason is used for both the audit log and the
   * message; otherwise both come from the no-reason text, which for a given
   * locale is the pair (localized, default).
   */
  function GetReason(reason: Option<string>, locale: Option<string>, noReason: string, localized: string): (r: (string, string))
    ensures reason.Some? && |reason.value| > 0 ==> r == (reason.value, reason.value)
    ensures (reason.None? || |reason.value| == 0) && locale.None? ==> r == (noReason, noReason)
    ensures (reason.None? || |reason.value| == 0) && locale.Some? ==> r == (localized, noReason)
  {
    if reason.Some? && |reason.value| > 0 then (reason.value, reason.value)
    else if locale.None? then (noReason, noReason)
    else (localized, noReason)
  }

  /** What a registered timer does when it fires. */
  datatype Job =
    | BanExpiry(actionId: int, userId: int)
    | TimeoutExpiry(actionId: int, userId: int)
    | TimeoutRefresh(record: TempAction, refreshTime: int)
    | FinalCleanup(actionId: int, userId: int)
    | TempbanExpiry(record: TempAction)

  /** A Discord call, in the order it was made. */
  datatype Effect =
    | UnbanCall(user: int)
    | EditCall(user: int, until: Option<int>)
    | BanCall(user: int, reason: string)
    | KickCall(user: int, reason: string)
    | LogCall(user: int, ptype: PunishmentType, staff: int, reason: string, duration: Option<int>, expiresAt: Option<int>)

  /** A one-shot timer; its id is its position in `timers`. */
  datatype Timer = Timer(key: TaskKey, delay: int, job: Job)

  /** The task registry, the temporary-action table and the calls made so far. */
  datatype World = World(store: Store, tasks: map<TaskKey, TaskId>, cancelled: set<TaskId>,
                         timers: seq<Timer>, effects: seq<Effect>)

  /** Every registered task is a timer registered under that very key. */
  predicate WorldValid(w: World)
  {
    StoreValid(w.store)
    && forall k :: k in w.tasks ==> 0 <= w.tasks[k] < |w.timers| && w.timers[w.tasks[k]].key == k
  }

  /** Creates a timer and registers it with `add_or_refresh_task`. */
  function Schedule(w: World, key: TaskKey, delay: int, job: Job): (r: World)
    requires WorldValid(w)
    ensures WorldValid(r)
    ensures r.timers == w.timers + [Timer(key, delay, job)]
    ensures (r.tasks, r.cancelled) == RegistryAddOrRefresh(w.tasks, w.cancelled, key, |w.timers|)
    ensures r.store == w.store && r.effects == w.effects
  {
    var (tasks, cancelled) := RegistryAddOrRefresh(w.tasks, w.cancelled, key, |w.timers|);
    World(w.store, tasks, cancelled, w.timers + [Timer(key, delay, job)], w.effects)
  }

  function Emit(w: World, e: Effect): (r: World)
    ensures r == w.(effects := w.effects + [e])
  {
    w.(effects := w.effects + [e])
  }

  function DeleteRecord(w: World, id: int): (r: World)
    requires WorldValid(w)
    ensures WorldValid(r)
    ensures r == w.(store := Remove(w.store, id).0)
  {
    w.(store := Remove(w.store, id).0)
  }

  function UpsertRecord(w: World, a: TempAction): (r: (World, TempAction))
    requires WorldValid(w) && IdAcceptable(a)
    ensures WorldValid(r.0)
    ensures (r.0.store, r.1) == Upsert(w.store, a)
    ensures r.0 == w.(store := r.0.store)
  {
    var (s, row) := Upsert(w.store, a);
    (w.(store := s), row)
  }

  /** `remove_task`: forgets the key without cancelling its timer. */
  function RemoveTask(w: World, key: TaskKey): (r: World)
    requires WorldValid(w)
    ensures WorldValid(r)
    ensures r == w.(tasks := w.tasks - {key})
  {
    w.(tasks := w.tasks - {key})
  }

  // ---------------------------------------------------------------------
  // Timer bodies

  /** A fresh record built by the scheduler: `created_at` defaults to the current time. */
  function Record(id: Option<int>, user: int, ptype: PunishmentType, now: int, expiresAt: int, refreshAt: Option<int>): TempAction
  {
    TempAction(id, user, TypeValue(ptype), now, expiresAt, refreshAt)
  }

  predicate StoredRecord(p: TempAction)
  {
    p.id.Some? && p.id.value >= 1
  }

  /**
   * One firing of the timeout refresh chain at time `now` for a record whose
   * current Discord timeout ends at `refreshTime`: while more than the
   * ceiling remains, re-apply the ceiling and re-arm; otherwise apply the
   * exact end and arm the final cleanup.
   */
  function RefreshTimeout(w: World, p: TempAction, refreshTime: int, now: int, outcome: Outcome): (r: World)
    requires WorldValid(w) && StoredRecord(p)
    ensures WorldValid(r)
  {
    if refreshTime < p.expiresAt then
      var remaining := p.expiresAt - refreshTime;
      if remaining > MaxTimeout then
        var next := now + MaxTimeout;
        var (w1, updated) := UpsertRecord(w, Record(p.id, p.userId, Timeout, now, p.expiresAt, Some(next)));
        var w2 := Emit(w1, EditCall(p.userId, Some(next)));
        if outcome != Succeeded then w2
        else Schedule(w2, (p.userId, Timeout), MaxTimeout, TimeoutRefresh(updated, next))
      else
        var (w1, _) := UpsertRecord(w, Record(p.id, p.userId, Timeout, now, p.expiresAt, None));
        var w2 := Emit(w1, EditCall(p.userId, Some(p.expiresAt)));
        if outcome != Succeeded then w2
        else Schedule(w2, (p.userId, Timeout), remaining, FinalCleanup(p.id.value, p.userId))
    else w
  }

  /** What a timer does when it fires at `now`; `outcome` is how its Discord call ended. */
  function RunJob(w: World, job: Job, now: int, outcome: Outcome): (r: World)
    requires WorldValid(w)
    requires job.TimeoutRefresh? ==> StoredRecord(job.record)
    ensures WorldValid(r)
  {
    match job
    case BanExpiry(aid, uid) =>
      var w1 := Emit(w, UnbanCall(uid));
      if outcome == Succeeded then RemoveTask(DeleteRecord(w1, aid), (uid, Ban))
      else if outcome == NotFound then DeleteRecord(w1, aid)
      else w1
    case TimeoutExpiry(aid, uid) =>
      var w1 := Emit(w, EditCall(uid, None));
      if outcome == Succeeded then RemoveTask(DeleteRecord(w1, aid), (uid, Timeout))
      else if outcome == NotFound then DeleteRecord(w1, aid)
      else w1
    case TimeoutRefresh(p, rt) => RefreshTimeout(w, p, rt, now, outcome)
    case FinalCleanup(aid, uid) => RemoveTask(DeleteRecord(w, aid), (uid, Timeout))
    case TempbanExpiry(p) =>
      var w1 := Emit(w, UnbanCall(p.userId));
      if outcome != Succeeded then w1
      else
        var w2 := if p.id.Some? then DeleteRecord(w1, p.id.value) else w1;
        RemoveTask(w2, (p.userId, Ban))
  }

  /** The expiry bodies delete the record unless the call failed outright, and only success forgets the task. */
  lemma ExpiryJobsCleanUp(w: World, aid: int, uid: int, now: int, outcome: Outcome)
    requires WorldValid(w)
    ensures var r := RunJob(w, BanExpiry(aid, uid), now, outcome);
            (outcome != Failed ==> aid !in r.store.rows) && (outcome == Failed ==> r.store == w.store)
            && ((uid, Ban) in r.tasks <==> (uid, Ban) in w.tasks && outcome != Succeeded)
            && r.effects == w.effects + [UnbanCall(uid)]
    ensures var r := RunJob(w, TimeoutExpiry(aid, uid), now, outcome);
            (outcome != Failed ==> aid !in r.store.rows) && (outcome == Failed ==> r.store == w.store)
            && ((uid, Timeout) in r.tasks <==> (uid, Timeout) in w.tasks && outcome != Succeeded)
            && r.effects == w.effects + [EditCall(uid, None)]
  {
  }

  /** A refresh that fires on time either re-arms itself for the next ceiling or arms the cleanup at the exact end. */
  lemma RefreshStep(w: World, p: TempAction, rt: int)
    requires WorldValid(w) && StoredRecord(p) && rt < p.expiresAt
    ensures var r := RefreshTimeout(w, p, rt, rt, Succeeded);
            var key := (p.userId, Timeout);
            |r.timers| == |w.timers| + 1 && key in r.tasks && r.tasks[key] == |w.timers|
            && p.id.value in r.store.rows && r.store.rows[p.id.value].expiresAt == p.expiresAt
            && (p.expiresAt - rt > MaxTimeout ==>
                  r.effects == w.effects + [EditCall(p.userId, Some(rt + MaxTimeout))]
                  && r.timers[|w.timers|].delay == MaxTimeout
                  && r.timers[|w.timers|].job.TimeoutRefresh?
                  && r.timers[|w.timers|].job.refreshTime == rt + MaxTimeout
                  && r.store.rows[p.id.value].refreshAt == Some(rt + MaxTimeout))
            && (p.expiresAt - rt <= MaxTimeout ==>
                  r.effects == w.effects + [EditCall(p.userId, Some(p.expiresAt))]
                  && r.timers[|w.timers|] == Timer(key, p.expiresAt - rt, FinalCleanup(p.id.value, p.userId))
                  && r.store.rows[p.id.value].refreshAt == None)
  {
  }

  // ---------------------------------------------------------------------
  // The whole refresh chain

  /** The ends of the Discord timeouts applied by a chain started at `rt`. */
  function ChainEnds(expiresAt: int, rt: int): (r: seq<int>)
    requires rt < expiresAt
    ensures |r| > 0 && r[|r| - 1] == expiresAt
    decreases expiresAt - rt
  {
    if expiresAt - rt > MaxTimeout then [rt + MaxTimeout] + ChainEnds(expiresAt, rt + MaxTimeout)
    else [expiresAt]
  }

  /**
   * The applied timeouts tile the time from `rt` to the expiry: each one
   * starts when the previous one ends, none exceeds the ceiling, and the
   * last ends exactly at the expiry.
   */
  lemma {:induction false} ChainEndsTile(expiresAt: int, rt: int)
    requires rt < expiresAt
    ensures var e := ChainEnds(expiresAt, rt);
            rt < e[0] <= rt + MaxTimeout
            && (forall i :: 0 <= i < |e| - 1 ==> e[i + 1] - e[i] <= MaxTimeout && e[i] < e[i + 1])
            && e[|e| - 1] == expiresAt
    decreases expiresAt - rt
  {
    if expiresAt - rt > MaxTimeout {
      ChainEndsTile(expiresAt, rt + MaxTimeout);
    }
  }

  /** The record a long refresh at `now` stores and hands to the next timer. */
  function Rearmed(p: TempAction, now: int): (r: TempAction)
    requires StoredRecord(p)
    ensures StoredRecord(r) && r.id == p.id && r.userId == p.userId && r.expiresAt == p.expiresAt
  {
    Record(p.id, p.userId, Timeout, now, p.expiresAt, Some(now + MaxTimeout))
  }

  /** Fires every refresh timer of the chain at its due time, each Discord call succeeding. */
  function FireChain(w: World, p: TempAction, rt: int): (r: World)
    requires WorldValid(w) && StoredRecord(p) && rt < p.expiresAt
    ensures WorldValid(r)
    decreases p.expiresAt - rt
  {
    var w1 := RefreshTimeout(w, p, rt, rt, Succeeded);
    if p.expiresAt - rt > MaxTimeout then FireChain(w1, Rearmed(p, rt), rt + MaxTimeout) else w1
  }

  /** A long step stores and re-arms with `Rearmed`, and edits the member to the next ceiling. */
  lemma LongStep(w: World, p: TempAction, rt: int)
    requires WorldValid(w) && StoredRecord(p) && rt < p.expiresAt && p.expiresAt - rt > MaxTimeout
    ensures var r := RefreshTimeout(w, p, rt, rt, Succeeded);
            |r.timers| == |w.timers| + 1 && r.timers[|w.timers|].job == TimeoutRefresh(Rearmed(p, rt), rt + MaxTimeout)
            && r.effects == w.effects + [EditCall(p.userId, Some(rt + MaxTimeout))]
  {
    var a := Rearmed(p, rt);
    assert Upsert(w.store, a).1 == a;
  }

  /** The chain's Discord edits are exactly `ChainEnds`, appended in order. */
  lemma {:induction false} FireChainEdits(w: World, p: TempAction, rt: int)
    requires WorldValid(w) && StoredRecord(p) && rt < p.expiresAt
    ensures FireChain(w, p, rt).effects == w.effects + EditsTo(p.userId, ChainEnds(p.expiresAt, rt))
    decreases p.expiresAt - rt
  {
    if p.expiresAt - rt > MaxTimeout {
      var w1 := RefreshTimeout(w, p, rt, rt, Succeeded);
      FireChainEdits(w1, Rearmed(p, rt), rt + MaxTimeout);
      LongEdits(w, p, rt);
    } else {
      ShortStep(w, p, rt);
      var ends := ChainEnds(p.expiresAt, rt);
      assert ends == [p.expiresAt];
      EditsToCons(p.userId, p.expiresAt, []);
      assert [p.expiresAt] + [] == [p.expiresAt];
    }
  }

  /** One long step of `FireChainEdits`: the first edit followed by the rest of the chain's. */
  lemma LongEdits(w: World, p: TempAction, rt: int)
    requires WorldValid(w) && StoredRecord(p) && rt < p.expiresAt && p.expiresAt - rt > MaxTimeout
    requires var w1 := RefreshTimeout(w, p, rt, rt, Succeeded);
             FireChain(w1, Rearmed(p, rt), rt + MaxTimeout).effects
             == w1.effects + EditsTo(p.userId, ChainEnds(p.expiresAt, rt + MaxTimeout))
    ensures FireChain(w, p, rt).effects == w.effects + EditsTo(p.userId, ChainEnds(p.expiresAt, rt))
  {
    var w1 := RefreshTimeout(w, p, rt, rt, Succeeded);
    LongStep(w, p, rt);
    FireChainLong(w, p, rt);
    EditsLong(p.userId, p.expiresAt, rt);
    ConsTrace(FireChain(w1, Rearmed(p, rt), rt + MaxTimeout).effects, w1.effects, w.effects,
              EditCall(p.userId, Some(rt + MaxTimeout)),
              EditsTo(p.userId, ChainEnds(p.expiresAt, rt + MaxTimeout)), EditsTo(p.userId, ChainEnds(p.expiresAt, rt)));
  }

  lemma FireChainLong(w: World, p: TempAction, rt: int)
    requires WorldValid(w) && StoredRecord(p) && rt < p.expiresAt && p.expiresAt - rt > MaxTimeout
    ensures FireChain(w, p, rt) == FireChain(RefreshTimeout(w, p, rt, rt, Succeeded), Rearmed(p, rt), rt + MaxTimeout)
  {
  }

  lemma EditsLong(user: int, expiresAt: int, rt: int)
    requires rt < expiresAt && expiresAt - rt > MaxTimeout
    ensures EditsTo(user, ChainEnds(expiresAt, rt))
            == [EditCall(user, Some(rt + MaxTimeout))] + EditsTo(user, ChainEnds(expiresAt, rt + MaxTimeout))
  {
    EditsToCons(user, rt + MaxTimeout, ChainEnds(expiresAt, rt + MaxTimeout));
  }

  lemma AppendAssoc(a: seq<Effect>, b: seq<Effect>, c: seq<Effect>)
    ensures (a + b) + c == a + (b + c)
  {
  }

  /** A trace that extends one ending in `e` by `t` is the base followed by `e` and `t`. */
  lemma ConsTrace(r: seq<Effect>, mid: seq<Effect>, base: seq<Effect>, e: Effect, t: seq<Effect>, all: seq<Effect>)
    requires r == mid + t && mid == base + [e] && all == [e] + t
    ensures r == base + all
  {
    AppendAssoc(base, [e], t);
  }

  lemma ShortStep(w: World, p: TempAction, rt: int)
    requires WorldValid(w) && StoredRecord(p) && rt < p.expiresAt && p.expiresAt - rt <= MaxTimeout
    ensures FireChain(w, p, rt).effects == w.effects + [EditCall(p.userId, Some(p.expiresAt))]
  {
  }

  function EditsTo(user: int, ends: seq<int>): (r: seq<Effect>)
    ensures |r| == |ends| && forall i :: 0 <= i < |ends| ==> r[i] == EditCall(user, Some(ends[i]))
    ensures |ends| == 0 ==> r == []
  {
    if |ends| == 0 then [] else [EditCall(user, Some(ends[0]))] + EditsTo(user, ends[1..])
  }

  lemma EditsToCons(user: int, e: int, tail: seq<int>)
    ensures EditsTo(user, [e] + tail) == [EditCall(user, Some(e))] + EditsTo(user, tail)
  {
    assert ([e] + tail)[1..] == tail;
  }

  /**
   * When the chain is done, the record is kept with its expiry and no
   * further refresh, and the member's timeout key holds the final cleanup.
   */
  lemma {:induction false} FireChainEnds(w: World, p: TempAction, rt: int)
    requires WorldValid(w) && StoredRecord(p) && rt < p.expiresAt
    ensures var r := FireChain(w, p, rt);
            (p.userId, Timeout) in r.tasks
            && r.timers[r.tasks[(p.userId, Timeout)]].job == FinalCleanup(p.id.value, p.userId)
            && p.id.value in r.store.rows && r.store.rows[p.id.value].refreshAt == None
            && r.store.rows[p.id.value].expiresAt == p.expiresAt
    decreases p.expiresAt - rt
  {
    if p.expiresAt - rt > MaxTimeout {
      FireChainEnds(RefreshTimeout(w, p, rt, rt, Succeeded), Rearmed(p, rt), rt + MaxTimeout);
      FireChainLong(w, p, rt);
    } else {
      RefreshStep(w, p, rt);
    }
  }
}
