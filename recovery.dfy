// Startup recovery of temporary punishments: every stored ban and timeout is
// either finished at once (it expired while the bot was down) or scheduled
// again. The Discord call a record needs ends with the given outcome.
module Recovery {
  import opened Common
  import opened GlobalState
  import opened TempActions
  import opened Scheduling

  /** A record handled by the ban branch. */
  function RecoverBan(w: World, a: TempAction, now: int, outcome: Outcome): (r: World)
    requires WorldValid(w) && a.id.Some?
    ensures WorldValid(r)
    ensures a.expiresAt <= now ==> r.effects == w.effects + [UnbanCall(a.userId)] && r.tasks == w.tasks && r.timers == w.timers
    ensures a.expiresAt <= now && outcome != Failed ==> r.store == Remove(w.store, a.id.value).0
    ensures a.expiresAt <= now && outcome == Failed ==> r.store == w.store
    ensures a.expiresAt > now ==> r == Schedule(w, (a.userId, Ban), a.expiresAt - now, BanExpiry(a.id.value, a.userId))
  {
    var aid := a.id.value;
    if a.expiresAt <= now then
      var w1 := Emit(w, UnbanCall(a.userId));
      if outcome == Failed then w1 else DeleteRecord(w1, aid)
    else Schedule(w, (a.userId, Ban), a.expiresAt - now, BanExpiry(aid, a.userId))
  }

  /**
   * `_handle_timeout_refresh` as written: one edit for at most the ceiling,
   * then the record is stored again with the next refresh time (or none);
   * no timer is registered.
   */
  function RefreshOnRecoveryAsWritten(w: World, a: TempAction, aid: int, now: int, outcome: Outcome): (r: World)
    requires WorldValid(w) && aid >= 1
    ensures WorldValid(r)
  {
    if a.refreshAt.None? then w
    else
      var left := a.expiresAt - now;
      var duration := if left < MaxTimeout then left else MaxTimeout;
      var w1 := Emit(w, EditCall(a.userId, Some(now + duration)));
      if outcome != Succeeded then w1
      else UpsertRecord(w1, TempAction(Some(aid), a.userId, a.ptype, now, a.expiresAt,
                                       if left > MaxTimeout then Some(now + MaxTimeout) else None)).0
  }

  /**
   * The corrected refresh: the same edit and record, followed by the timer
   * that keeps the timeout going — the refresh chain while more than the
   * ceiling remains, else the expiry task at the end.
   */
  function RefreshOnRecovery(w: World, a: TempAction, aid: int, now: int, outcome: Outcome): (r: World)
    requires WorldValid(w) && aid >= 1
    ensures WorldValid(r)
  {
    var w1 := RefreshOnRecoveryAsWritten(w, a, aid, now, outcome);
    if a.refreshAt.None? || outcome != Succeeded then w1
    else
      var left := a.expiresAt - now;
      if left > MaxTimeout then
        Schedule(w1, (a.userId, Timeout), MaxTimeout,
                 TimeoutRefresh(TempAction(Some(aid), a.userId, a.ptype, now, a.expiresAt, Some(now + MaxTimeout)), now + MaxTimeout))
      else Schedule(w1, (a.userId, Timeout), left, TimeoutExpiry(aid, a.userId))
  }

  /** The three branches of a pending timeout, with the refresh step as a parameter. */
  function RecoverTimeoutWith(w: World, a: TempAction, now: int, outcome: Outcome, rearm: bool): (r: World)
    requires WorldValid(w) && a.id.Some? && a.id.value >= 1
    ensures WorldValid(r)
  {
    var aid := a.id.value;
    if a.expiresAt <= now then DeleteRecord(w, aid)
    else if a.refreshAt.Some? && a.refreshAt.value < a.expiresAt then
      if rearm then RefreshOnRecovery(w, a, aid, now, outcome) else RefreshOnRecoveryAsWritten(w, a, aid, now, outcome)
    else if a.refreshAt.None? && a.expiresAt - now > MaxTimeout then
      var modified := a.(createdAt := now, refreshAt := Some(now + MaxTimeout));
      if rearm then RefreshOnRecovery(w, modified, aid, now, outcome) else RefreshOnRecoveryAsWritten(w, modified, aid, now, outcome)
    else Schedule(w, (a.userId, Timeout), a.expiresAt - now, TimeoutExpiry(aid, a.userId))
  }

  /** The timeout branch with the corrected refresh step (`RefreshOnRecovery`,
      which re-arms a long timeout); `rearm := false` is the source as written. */
  function RecoverTimeout(w: World, a: TempAction, now: int, outcome: Outcome): (r: World)
    requires WorldValid(w) && a.id.Some? && a.id.value >= 1
    ensures WorldValid(r)
  {
    RecoverTimeoutWith(w, a, now, outcome, true)
  }

  /** An expired timeout only loses its record: nothing is said to Discord. */
  lemma ExpiredTimeoutOnlyDeletes(w: World, a: TempAction, now: int, outcome: Outcome)
    requires WorldValid(w) && a.id.Some? && a.id.value >= 1 && a.expiresAt <= now
    ensures RecoverTimeout(w, a, now, outcome) == w.(store := Remove(w.store, a.id.value).0)
  {
  }

  /** A short pending timeout without refresh gets its removal timer after exactly the time left. */
  lemma ShortTimeoutScheduled(w: World, a: TempAction, now: int, outcome: Outcome)
    requires WorldValid(w) && a.id.Some? && a.id.value >= 1
    requires now < a.expiresAt && a.expiresAt - now <= MaxTimeout && a.refreshAt.None?
    ensures var r := RecoverTimeout(w, a, now, outcome);
            r.timers == w.timers + [Timer((a.userId, Timeout), a.expiresAt - now, TimeoutExpiry(a.id.value, a.userId))]
            && r.tasks[(a.userId, Timeout)] == |w.timers| && r.effects == w.effects && r.store == w.store
  {
  }

  /**
   * The refresh path as written never registers a timer, so a timeout with
   * more than the ceiling left ends at `now + MaxTimeout`, before its
   * recorded expiry, while the registry holds nothing to extend it.
   */
  lemma {:induction false} LongTimeoutLapsesAsWritten(w: World, a: TempAction, now: int)
    requires WorldValid(w) && a.id.Some? && a.id.value >= 1
    requires a.refreshAt.None? && a.expiresAt - now > MaxTimeout
    ensures var r := RecoverTimeoutWith(w, a, now, Succeeded, false);
            r.timers == w.timers && r.tasks == w.tasks
            && r.effects == w.effects + [EditCall(a.userId, Some(now + MaxTimeout))]
            && now + MaxTimeout < a.expiresAt
            && a.id.value in r.store.rows && r.store.rows[a.id.value].expiresAt == a.expiresAt
  {
  }

  /** A concrete instance: a three-period timeout recovered with no task, covered for one period only. */
  lemma LapseExample()
    ensures var a := TempAction(Some(1), 42, "timeout", 0, 3 * MaxTimeout, None);
            var w := World(Store(map[1 := a], 2), map[], {}, [], []);
            var r := RecoverTimeoutWith(w, a, 0, Succeeded, false);
            (42, Timeout) !in r.tasks && r.effects == [EditCall(42, Some(MaxTimeout))]
  {
    var a := TempAction(Some(1), 42, "timeout", 0, 3 * MaxTimeout, None);
    var w := World(Store(map[1 := a], 2), map[], {}, [], []);
    LongTimeoutLapsesAsWritten(w, a, 0);
  }

  /**
   * With the corrected refresh, a long timeout registers the refresh chain
   * under the member's timeout key, due when the applied timeout ends.
   */
  lemma LongTimeoutRearmed(w: World, a: TempAction, now: int)
    requires WorldValid(w) && a.id.Some? && a.id.value >= 1
    requires a.refreshAt.None? && a.expiresAt - now > MaxTimeout
    ensures var r := RecoverTimeout(w, a, now, Succeeded);
            var key := (a.userId, Timeout);
            key in r.tasks && r.tasks[key] == |w.timers|
            && r.timers[|w.timers|].delay == MaxTimeout
            && r.timers[|w.timers|].job.TimeoutRefresh?
            && r.timers[|w.timers|].job.refreshTime == now + MaxTimeout
            && r.timers[|w.timers|].job.record.expiresAt == a.expiresAt
            && r.effects == w.effects + [EditCall(a.userId, Some(now + MaxTimeout))]
  {
  }

  /**
   * Corrected recovery followed by the chain it arms, each timer firing on
   * time: the member is edited to `now + MaxTimeout` and then to every end
   * of `ChainEnds`, the last being the recorded expiry.
   */
  lemma {:induction false} RecoveredTimeoutCoversExpiry(w: World, a: TempAction, now: int)
    requires WorldValid(w) && a.id.Some? && a.id.value >= 1
    requires a.refreshAt.None? && a.expiresAt - now > MaxTimeout
    ensures var r := RecoverTimeout(w, a, now, Succeeded);
            var job := r.timers[|w.timers|].job;
            job.TimeoutRefresh? && StoredRecord(job.record) && job.record.userId == a.userId
            && FireChain(r, job.record, job.refreshTime).effects
               == w.effects + [EditCall(a.userId, Some(now + MaxTimeout))] + EditsTo(a.userId, ChainEnds(a.expiresAt, now + MaxTimeout))
  {
    LongTimeoutRearmed(w, a, now);
    var r := RecoverTimeout(w, a, now, Succeeded);
    var job := r.timers[|w.timers|].job;
    FireChainEdits(r, job.record, job.refreshTime);
  }

  /** The result of a recovery pass: the world, and the error that stopped it, if any. */
  datatype Pass = Pass(world: World, error: Option<string>)

  /**
   * One record. A record without id is skipped; a type whose upper-cased
   * value is not an enum member name stops the whole pass; only bans and
   * timeouts have a handler.
   */
  function RecoverOne(w: World, a: TempAction, now: int, outcome: Outcome): (r: Pass)
    requires WorldValid(w) && IdAcceptable(a)
    ensures WorldValid(r.world)
    ensures a.id.None? ==> r == Pass(w, None)
    ensures r.error.Some? <==> a.id.Some? && TypeByName(Upper(a.ptype)).None?
    ensures r.error.Some? ==> r.world == w
  {
    if a.id.None? then Pass(w, None)
    else
      match TypeByName(Upper(a.ptype))
      case None => Pass(w, Some("AttributeError: " + Upper(a.ptype)))
      case Some(Ban) => Pass(RecoverBan(w, a, now, outcome), None)
      case Some(Timeout) => Pass(RecoverTimeout(w, a, now, outcome), None)
      case Some(_) => Pass(w, None)
  }

  /** `schedule_punishment_tasks` over the records read at start-up, in order;
      an error ends the pass. Timeouts take the corrected `RecoverTimeout`. */
  function RecoverAll(w: World, records: seq<TempAction>, outcomes: seq<Outcome>, now: int): (r: Pass)
    requires WorldValid(w) && |outcomes| == |records|
    requires forall i :: 0 <= i < |records| ==> IdAcceptable(records[i])
    ensures WorldValid(r.world)
  {
    if |records| == 0 then Pass(w, None)
    else
      var n := |records| - 1;
      var prev := RecoverAll(w, records[..n], outcomes[..n], now);
      if prev.error.Some? then prev else RecoverOne(prev.world, records[n], now, outcomes[n])
  }

  /** The recovery loop, proved against `RecoverAll`. */
  method SchedulePunishmentTasks(w0: World, records: seq<TempAction>, outcomes: seq<Outcome>, now: int) returns (w: World, error: Option<string>)
    requires WorldValid(w0) && |outcomes| == |records|
    requires forall i :: 0 <= i < |records| ==> IdAcceptable(records[i])
    ensures Pass(w, error) == RecoverAll(w0, records, outcomes, now)
  {
    w, error := w0, None;
    if |records| == 0 {
      return;
    }
    var i := 0;
    while i < |records|
      invariant 0 <= i <= |records|
      invariant Pass(w, error) == RecoverAll(w0, records[..i], outcomes[..i], now)
      invariant error.None?
    {
      assert records[..i + 1][..i] == records[..i];
      assert outcomes[..i + 1][..i] == outcomes[..i];
      var step := RecoverOne(w, records[i], now, outcomes[i]);
      if step.error.Some? {
        TakeSnoc(records, i);
        w, error := step.world, step.error;
        if i + 1 < |records| {
          RecoverAllStops(w0, records, outcomes, now, i + 1);
        } else {
          assert records[..i + 1] == records;
          assert outcomes[..i + 1] == outcomes;
        }
        return;
      }
      w := step.world;
      i := i + 1;
    }
    assert records[..i] == records;
    assert outcomes[..i] == outcomes;
  }

  /** Once a prefix stopped with an error, the longer pass stops with the same result. */
  lemma {:induction false} RecoverAllStops(w: World, records: seq<TempAction>, outcomes: seq<Outcome>, now: int, k: nat)
    requires WorldValid(w) && |outcomes| == |records| && k <= |records|
    requires forall i :: 0 <= i < |records| ==> IdAcceptable(records[i])
    requires RecoverAll(w, records[..k], outcomes[..k], now).error.Some?
    ensures RecoverAll(w, records, outcomes, now) == RecoverAll(w, records[..k], outcomes[..k], now)
    decreases |records| - k
  {
    if k < |records| {
      var n := |records| - 1;
      assert records[..n][..k] == records[..k];
      assert outcomes[..n][..k] == outcomes[..k];
      RecoverAllStops(w, records[..n], outcomes[..n], now, k);
    } else {
      assert records[..k] == records;
      assert outcomes[..k] == outcomes;
    }
  }

  /** Records the bot itself wrote always have a handler lookup that succeeds. */
  lemma WrittenRecordsNeverStop(w: World, a: TempAction, p: PunishmentType, now: int, outcome: Outcome)
    requires WorldValid(w) && IdAcceptable(a) && a.ptype == TypeValue(p)
    ensures RecoverOne(w, a, now, outcome).error.None?
  {
    TypeValueRoundTrip(p, a.ptype);
  }
}
