// The temporary-action table (pending temporary bans and timeouts) and the
// service operations the scheduler uses on it: upsert by id, delete by id,
// and the filtered, newest-first queries. The table is a map from id to row.
module TempActions {
  import opened Common

  /** One row; `id` is None only for a record that was never stored. Times are in seconds. */
  datatype TempAction = TempAction(id: Option<int>, userId: int, ptype: string, createdAt: int,
                                   expiresAt: int, refreshAt: Option<int>)

  /** The table and the next id the auto-increment column hands out. */
  datatype Store = Store(rows: map<int, TempAction>, nextId: int)

  /** Every row is stored under its own id, and auto-increment is past every id. */
  predicate StoreValid(s: Store)
  {
    s.nextId >= 1 && forall k :: k in s.rows ==> 1 <= k < s.nextId && s.rows[k].id == Some(k)
  }

  /** The schema's `PositiveInt | None` constraint on a given id. */
  predicate IdAcceptable(a: TempAction)
  {
    a.id.None? || a.id.value >= 1
  }

  /** The same row with another id, every other field kept. */
  predicate SameFields(x: TempAction, y: TempAction)
  {
    x.userId == y.userId && x.ptype == y.ptype && x.createdAt == y.createdAt
    && x.expiresAt == y.expiresAt && x.refreshAt == y.refreshAt
  }

  /**
   * `create_or_update_temporary_action`: a given id that exists is updated in
   * place; otherwise a row is created, with the given id if there is one and
   * with the next auto-increment id if not.
   */
  function Upsert(s: Store, a: TempAction): (r: (Store, TempAction))
    requires IdAcceptable(a)
    ensures r.1.id.Some? && r.1.id.value in r.0.rows && r.0.rows[r.1.id.value] == r.1
    ensures SameFields(r.1, a)
    ensures a.id.Some? ==> r.1.id == a.id
    ensures a.id.Some? && a.id.value in s.rows ==> r.0 == Store(s.rows[a.id.value := a], s.nextId)
    ensures a.id.None? ==> r.1.id.value == s.nextId
    ensures !(a.id.Some? && a.id.value in s.rows) && StoreValid(s) ==> r.1.id.value !in s.rows
    ensures forall k :: k in s.rows && k != r.1.id.value ==> k in r.0.rows && r.0.rows[k] == s.rows[k]
    ensures r.0.rows.Keys == s.rows.Keys + {r.1.id.value}
    ensures StoreValid(s) ==> StoreValid(r.0)
  {
    if a.id.Some? && a.id.value in s.rows then (Store(s.rows[a.id.value := a], s.nextId), a)
    else
      var id := if a.id.Some? then a.id.value else s.nextId;
      var row := a.(id := Some(id));
      (Store(s.rows[id := row], if id + 1 > s.nextId then id + 1 else s.nextId), row)
  }

  /** `delete_temporary_action`: reports whether a row was removed. */
  function Remove(s: Store, id: int): (r: (Store, bool))
    ensures r.1 <==> id in s.rows
    ensures r.0 == Store(s.rows - {id}, s.nextId)
    ensures StoreValid(s) ==> StoreValid(r.0)
  {
    (Store(s.rows - {id}, s.nextId), id in s.rows)
  }

  /** Upserting a stored row's own content again changes nothing. */
  lemma UpsertStoredIdempotent(s: Store, a: TempAction)
    requires StoreValid(s) && a.id.Some? && a.id.value in s.rows && s.rows[a.id.value] == a
    ensures Upsert(s, a).0 == s
  {
    assert s.rows[a.id.value := a] == s.rows;
  }

  /** After an upsert the row can be deleted again, and deleting it leaves every other row. */
  lemma DeleteAfterUpsert(s: Store, a: TempAction)
    requires StoreValid(s) && IdAcceptable(a) && a.id.None?
    ensures Remove(Upsert(s, a).0, Upsert(s, a).1.id.value).1
    ensures Remove(Upsert(s, a).0, Upsert(s, a).1.id.value).0.rows == s.rows
  {
    var (t, row) := Upsert(s, a);
    assert t.rows - {row.id.value} == s.rows;
  }

  // ---------------------------------------------------------------------
  // Filtered queries, newest (highest id) first

  predicate Matches(row: TempAction, user: Option<int>, ptype: Option<string>)
  {
    (user.None? || row.userId == user.value) && (ptype.None? || row.ptype == ptype.value)
  }

  /** Matching rows with ids below `hi`, in descending id order. */
  function Below(s: Store, hi: int, user: Option<int>, ptype: Option<string>): (r: seq<TempAction>)
    requires StoreValid(s)
    ensures forall x :: 0 <= x < |r| ==>
              (r[x].id.Some? && r[x].id.value < hi && r[x].id.value in s.rows
               && s.rows[r[x].id.value] == r[x] && Matches(r[x], user, ptype))
    decreases hi
  {
    if hi <= 1 then []
    else if hi - 1 in s.rows && Matches(s.rows[hi - 1], user, ptype) then [s.rows[hi - 1]] + Below(s, hi - 1, user, ptype)
    else Below(s, hi - 1, user, ptype)
  }

  /** Every matching row below `hi` is listed. */
  lemma {:induction false} BelowComplete(s: Store, hi: int, user: Option<int>, ptype: Option<string>, k: int)
    requires StoreValid(s) && k in s.rows && k < hi && Matches(s.rows[k], user, ptype)
    ensures s.rows[k] in Below(s, hi, user, ptype)
    decreases hi
  {
    if k != hi - 1 {
      BelowComplete(s, hi - 1, user, ptype, k);
    }
  }

  /** The listing is strictly descending by id. */
  lemma {:induction false} BelowDescending(s: Store, hi: int, user: Option<int>, ptype: Option<string>)
    requires StoreValid(s)
    ensures forall x, y :: 0 <= x < y < |Below(s, hi, user, ptype)| ==>
              Below(s, hi, user, ptype)[x].id.value > Below(s, hi, user, ptype)[y].id.value
    decreases hi
  {
    if hi > 1 {
      BelowDescending(s, hi - 1, user, ptype);
    }
  }

  /** `get_latest`: the matching row with the highest id, if any. */
  function Latest(s: Store, user: Option<int>, ptype: Option<string>): (r: Option<TempAction>)
    requires StoreValid(s)
  {
    var all := Below(s, s.nextId, user, ptype);
    if |all| == 0 then None else Some(all[0])
  }

  /** The latest row matches, and no matching row has a higher id; None means nothing matches. */
  lemma LatestIsNewest(s: Store, user: Option<int>, ptype: Option<string>)
    requires StoreValid(s)
    ensures Latest(s, user, ptype).None? <==> forall k :: k in s.rows ==> !Matches(s.rows[k], user, ptype)
    ensures Latest(s, user, ptype).Some? ==>
              var row := Latest(s, user, ptype).value;
              row.id.Some? && row.id.value in s.rows && s.rows[row.id.value] == row && Matches(row, user, ptype)
              && forall k :: k in s.rows && Matches(s.rows[k], user, ptype) ==> k <= row.id.value
  {
    var all := Below(s, s.nextId, user, ptype);
    BelowDescending(s, s.nextId, user, ptype);
    forall k | k in s.rows && Matches(s.rows[k], user, ptype)
      ensures |all| > 0 && k <= all[0].id.value
    {
      BelowComplete(s, s.nextId, user, ptype, k);
      var x :| 0 <= x < |all| && all[x] == s.rows[k];
      assert all[x].id == Some(k);
    }
    if |all| > 0 {
      assert all[0].id.value in s.rows;
    }
  }

  /** SQL pagination: skip `offset` rows, then keep at most `limit`. */
  function Page(xs: seq<TempAction>, limit: Option<nat>, offset: Option<nat>): (r: seq<TempAction>)
    ensures var start := if offset.Some? then offset.value else 0;
            var avail := if start < |xs| then |xs| - start else 0;
            |r| == (if limit.Some? && limit.value < avail then limit.value else avail)
            && (start < |xs| ==> r == xs[start..start + |r|])
  {
    var start := if offset.Some? && offset.value <= |xs| then offset.value else if offset.Some? then |xs| else 0;
    var rest := xs[start..];
    if limit.Some? && limit.value < |rest| then rest[..limit.value] else rest
  }

  /** The list form of the filtered query. */
  function Filtered(s: Store, user: Option<int>, ptype: Option<string>, limit: Option<nat>, offset: Option<nat>): (r: seq<TempAction>)
    requires StoreValid(s)
    ensures forall x :: 0 <= x < |r| ==> r[x].id.Some? && r[x].id.value in s.rows && Matches(r[x], user, ptype)
    ensures limit.Some? ==> |r| <= limit.value
  {
    Page(Below(s, s.nextId, user, ptype), limit, offset)
  }

  /** Without pagination every matching row is listed. */
  lemma FilteredComplete(s: Store, user: Option<int>, ptype: Option<string>, k: int)
    requires StoreValid(s) && k in s.rows && Matches(s.rows[k], user, ptype)
    ensures s.rows[k] in Filtered(s, user, ptype, None, None)
  {
    BelowComplete(s, s.nextId, user, ptype, k);
  }

  /** The outcome of `get_filtered_temporoary_action_logs`: one row (or none), or a list. */
  datatype Query = One(row: Option<TempAction>) | Many(rows: seq<TempAction>)

  function GetFiltered(s: Store, user: Option<int>, ptype: Option<string>, limit: Option<nat>, offset: Option<nat>, getLatest: bool): (r: Query)
    requires StoreValid(s)
    ensures getLatest <==> r.One?
    ensures getLatest ==> r.row == Latest(s, user, ptype)
    ensures !getLatest ==> r.rows == Filtered(s, user, ptype, limit, offset)
  {
    if getLatest then One(Latest(s, user, ptype)) else Many(Filtered(s, user, ptype, limit, offset))
  }

  /** The table as the services see it, updated in place. */
  class TempActionStore {
    var rows: map<int, TempAction>
    var nextId: int

    ghost predicate Valid()
      reads this
    {
      StoreValid(Store(rows, nextId))
    }

    function Snapshot(): Store
      reads this
    {
      Store(rows, nextId)
    }

    constructor()
      ensures Valid() && rows == map[] && nextId == 1
    {
      rows := map[];
      nextId := 1;
    }

    method CreateOrUpdate(a: TempAction) returns (stored: TempAction)
      requires Valid() && IdAcceptable(a)
      modifies this
      ensures Valid()
      ensures (Snapshot(), stored) == Upsert(old(Snapshot()), a)
    {
      if a.id.Some? && a.id.value in rows {
        rows := rows[a.id.value := a];
        return a;
      }
      var id := if a.id.Some? then a.id.value else nextId;
      stored := a.(id := Some(id));
      rows := rows[id := stored];
      if id + 1 > nextId {
        nextId := id + 1;
      }
    }

    method DeleteRow(id: int) returns (removed: bool)
      requires Valid()
      modifies this
      ensures Valid()
      ensures (Snapshot(), removed) == Remove(old(Snapshot()), id)
    {
      removed := id in rows;
      rows := rows - {id};
    }

    /** The descending scan of the table, proved against `Below`. */
    method ListMatching(user: Option<int>, ptype: Option<string>) returns (r: seq<TempAction>)
      requires Valid()
      ensures r == Below(Snapshot(), nextId, user, ptype)
    {
      r := [];
      var hi := nextId;
      ghost var s := Snapshot();
      while hi > 1
        invariant hi <= nextId || hi <= 1
        invariant r + Below(s, hi, user, ptype) == Below(s, nextId, user, ptype)
      {
        if hi - 1 in rows && Matches(rows[hi - 1], user, ptype) {
          var row := rows[hi - 1];
          assert Below(s, hi, user, ptype) == [row] + Below(s, hi - 1, user, ptype);
          assert r + ([row] + Below(s, hi - 1, user, ptype)) == (r + [row]) + Below(s, hi - 1, user, ptype);
          r := r + [row];
        }
        hi := hi - 1;
      }
    }
  }
}
