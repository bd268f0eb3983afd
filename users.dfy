// Linked user records: the record schema's checks, the repository's update,
// delete and inventory append, and the service's create-or-update merge.
// The database is a map from user id to record; a flush is a returned flag.
module Users {
  import opened Common
  import opened WireSchemas

  /** Reward commands per server name. */
  type Inventory = map<string, seq<string>>

  /** A user record: the Discord id, the locale, the linked Minecraft
      account and the reward inventory. */
  datatype User = User(id: int, locale: string, username: Option<string>, uuid: Option<string>,
                       inventory: Option<Inventory>)

  // ---------------------------------------------------------------------
  // The record schema

  /** What the schema can reject; all failing checks are reported together. */
  datatype UserError = NotPositiveId | UsernameTooLong | UuidTooLong | InvalidServerKeys(keys: set<string>)

  /** The inventory keys that name no known server. */
  function InvalidKeys(inv: Inventory, servers: seq<string>): (r: set<string>)
    ensures forall k :: k in r <==> k in inv && k !in servers
  {
    set k | k in inv && k !in servers
  }

  /** `validate_reward_inventory`: no inventory, an empty one, or an empty
      server list passes; otherwise every key must be a known server. */
  function InventoryError(inv: Option<Inventory>, servers: seq<string>): (r: Option<UserError>)
    ensures r.None? <==> inv.None? || |inv.value| == 0 || |servers| == 0 || forall k :: k in inv.value ==> k in servers
    ensures r.Some? ==> r.value == InvalidServerKeys(InvalidKeys(inv.value, servers)) && r.value.keys != {}
  {
    if inv.None? || |inv.value| == 0 || |servers| == 0 then None
    else
      var bad := InvalidKeys(inv.value, servers);
      if bad == {} then None
      else Some(InvalidServerKeys(bad))
  }

  /** Every check of the schema that fails for a record. */
  function Errors(u: User, servers: seq<string>): (r: set<UserError>)
    ensures r == {} <==> u.id > 0 && WithinLimit(u.username, MaxUsername) && WithinLimit(u.uuid, MaxUuid)
                         && InventoryError(u.inventory, servers).None?
    ensures NotPositiveId in r <==> u.id <= 0
    ensures UsernameTooLong in r <==> !WithinLimit(u.username, MaxUsername)
    ensures UuidTooLong in r <==> !WithinLimit(u.uuid, MaxUuid)
  {
    (if u.id <= 0 then {NotPositiveId} else {})
    + (if !WithinLimit(u.username, MaxUsername) then {UsernameTooLong} else {})
    + (if !WithinLimit(u.uuid, MaxUuid) then {UuidTooLong} else {})
    + (if InventoryError(u.inventory, servers).Some? then {InventoryError(u.inventory, servers).value} else {})
  }

  // ---------------------------------------------------------------------
  // Placeholders in reward commands

  const UsernamePlaceholder: string := "{minecraft_username}"
  const UuidPlaceholder: string := "{minecraft_uuid}"

  /** The placeholder replacement of one command: the username first, then the uuid. */
  function Substitute(item: string, username: string, uuid: string): string
  {
    ReplaceAll(ReplaceAll(item, UsernamePlaceholder, username), UuidPlaceholder, uuid)
  }

  /** A command without placeholders is kept as it is. */
  lemma SubstituteKeepsPlain(item: string, username: string, uuid: string)
    requires !HasSubstring(item, UsernamePlaceholder) && !HasSubstring(item, UuidPlaceholder)
    ensures Substitute(item, username, uuid) == item
  {
    ReplaceAllAbsent(item, UsernamePlaceholder, username);
    ReplaceAllAbsent(item, UuidPlaceholder, uuid);
  }

  /** The placeholder replacement of every command, in order. */
  function ProcessItems(items: seq<string>, username: string, uuid: string): (r: seq<string>)
    ensures |r| == |items|
    ensures forall i :: 0 <= i < |items| ==> r[i] == Substitute(items[i], username, uuid)
  {
    seq(|items|, i requires 0 <= i < |items| => Substitute(items[i], username, uuid))
  }

  /** An item argument: one command, or a list of them. */
  datatype Items = OneItem(item: string) | ItemList(items: seq<string>)

  /** A single command becomes a one-element list. */
  function AsList(v: Items): (r: seq<string>)
    ensures v.OneItem? ==> r == [v.item]
    ensures v.ItemList? ==> r == v.items
  {
    match v
    case OneItem(s) => [s]
    case ItemList(xs) => xs
  }

  /** Python's `value or ""` on an optional string. */
  function OrEmpty(v: Option<string>): (r: string)
    ensures v.Some? ==> r == v.value
    ensures v.None? ==> r == ""
  {
    if v.Some? then v.value else ""
  }

  /** The inventory after appending commands for one server: a new server
      gets them as its list, an existing list is extended in order, and the
      other servers keep theirs. */
  function Appended(inv: Inventory, server: string, items: seq<string>): (r: Inventory)
    ensures r.Keys == inv.Keys + {server}
    ensures r[server] == (if server in inv then inv[server] else []) + items
    ensures forall k :: k in inv && k != server ==> r[k] == inv[k]
  {
    if server !in inv then inv[server := items] else inv[server := inv[server] + items]
  }

  /** The record after `add_item`: the commands are wrapped into a list,
      their placeholders filled from the record, and appended to the server's list. */
  function AddedItems(u: User, server: string, items: Items): (r: User)
    ensures r.id == u.id && r.locale == u.locale && r.username == u.username && r.uuid == u.uuid
    ensures r.inventory.Some? && server in r.inventory.value
    ensures r.inventory.value[server]
              == (if u.inventory.Some? && server in u.inventory.value then u.inventory.value[server] else [])
                 + ProcessItems(AsList(items), OrEmpty(u.username), OrEmpty(u.uuid))
    ensures forall k :: u.inventory.Some? && k in u.inventory.value && k != server ==>
              k in r.inventory.value && r.inventory.value[k] == u.inventory.value[k]
  {
    var data := if u.inventory.Some? then u.inventory.value else map[];
    var processed := ProcessItems(AsList(items), OrEmpty(u.username), OrEmpty(u.uuid));
    u.(inventory := Some(Appended(data, server, processed)))
  }

  // ---------------------------------------------------------------------
  // Update and merge

  /** The change check of `update`: any of the four stored fields differs. */
  predicate HasChanges(u: User, s: User)
  {
    u.locale != s.locale || u.username != s.username || u.uuid != s.uuid || u.inventory != s.inventory
  }

  /** The stored record after the four assignments; the id is kept. */
  function Assigned(u: User, s: User): (r: User)
    ensures r.id == u.id
    ensures r.locale == s.locale && r.username == s.username && r.uuid == s.uuid && r.inventory == s.inventory
  {
    User(u.id, s.locale, s.username, s.uuid, s.inventory)
  }

  /** Skipping the write when nothing differs is invisible: the record is
      then already what the assignments would make it. */
  lemma UnchangedIsAssigned(u: User, s: User)
    requires !HasChanges(u, s)
    ensures Assigned(u, s) == u
  {
  }

  /** Python truthiness of the optional fields. */
  predicate Truthy(v: Option<string>) { v.Some? && v.value != "" }
  predicate FilledInventory(v: Option<Inventory>) { v.Some? && |v.value| > 0 }

  /** The `preserve_existing` merge: each of username, uuid and inventory
      takes the new value when it is truthy and the stored one otherwise;
      the locale is always the new one. */
  function Merge(data: User, existing: User): (r: User)
    ensures r.id == data.id && r.locale == data.locale
    ensures r.username == (if Truthy(data.username) then data.username else existing.username)
    ensures r.uuid == (if Truthy(data.uuid) then data.uuid else existing.uuid)
    ensures r.inventory == (if FilledInventory(data.inventory) then data.inventory else existing.inventory)
  {
    User(data.id, data.locale,
         if Truthy(data.username) then data.username else existing.username,
         if Truthy(data.uuid) then data.uuid else existing.uuid,
         if FilledInventory(data.inventory) then data.inventory else existing.inventory)
  }

  /** Merging is idempotent, and never loses a linked account: a stored
      username or uuid survives unless a non-empty one replaces it. */
  lemma MergeIdempotent(data: User, existing: User)
    ensures Merge(Merge(data, existing), existing) == Merge(data, existing)
    ensures Truthy(existing.username) ==> Truthy(Merge(data, existing).username)
    ensures Truthy(existing.uuid) ==> Truthy(Merge(data, existing).uuid)
  {
  }

  /** What `create_or_update_user` does. */
  datatype Upsert = Created(user: User) | Updated(user: User, flushed: bool) | Rejected(errors: set<UserError>)

  /** `create_or_update_user` on the store: an unknown id is created from the
      data; a known one is merged (when preserving) and updated. The merged
      record is built through the schema, so it can fail its checks. */
  function CreateOrUpdate(rows: map<int, User>, data: User, preserve: bool, servers: seq<string>): (r: Upsert)
    ensures data.id !in rows <==> r.Created?
    ensures r.Created? ==> r.user == data
    ensures r.Rejected? ==> preserve && data.id in rows && r.errors == Errors(Merge(data, rows[data.id]), servers) && r.errors != {}
    ensures r.Updated? && !preserve ==> r.user == Assigned(rows[data.id], data)
    ensures r.Updated? && preserve ==> r.user == Assigned(rows[data.id], Merge(data, rows[data.id]))
    ensures r.Updated? ==> (r.flushed <==> HasChanges(rows[data.id], if preserve then Merge(data, rows[data.id]) else data))
  {
    if data.id !in rows then Created(data)
    else
      var existing := rows[data.id];
      if preserve && Errors(Merge(data, existing), servers) != {} then Rejected(Errors(Merge(data, existing), servers))
      else
        var s := if preserve then Merge(data, existing) else data;
        Updated(Assigned(existing, s), HasChanges(existing, s))
  }

  /** Without preserving, the stored record takes every given field, empty
      values included. */
  lemma OverwriteTakesAll(rows: map<int, User>, data: User, servers: seq<string>)
    requires data.id in rows && rows[data.id].id == data.id
    ensures CreateOrUpdate(rows, data, false, servers) == Updated(data, HasChanges(rows[data.id], data))
  {
  }

  /** The user table. */
  class UserStore {
    var rows: map<int, User>

    constructor()
      ensures rows == map[]
    {
      rows := map[];
    }

    /** `create`: the record is added under its id. */
    method Create(u: User)
      modifies this
      ensures rows == old(rows)[u.id := u]
    {
      rows := rows[u.id := u];
    }

    /** `update`: None for an unknown id; otherwise the record with the four
        fields assigned, flushed only when one of them differed. */
    method Update(id: int, s: User) returns (r: Option<User>, flushed: bool)
      modifies this
      ensures r.Some? <==> id in old(rows)
      ensures r.None? ==> rows == old(rows) && !flushed
      ensures r.Some? ==> r.value == Assigned(old(rows)[id], s) && rows == old(rows)[id := r.value]
      ensures r.Some? ==> (flushed <==> HasChanges(old(rows)[id], s))
    {
      if id !in rows {
        return None, false;
      }
      var u := rows[id];
      if !HasChanges(u, s) {
        UnchangedIsAssigned(u, s);
        return Some(u), false;
      }
      var updated := User(u.id, s.locale, s.username, s.uuid, s.inventory);
      rows := rows[id := updated];
      return Some(updated), true;
    }

    /** `delete`: false for an unknown id; otherwise the record is removed. */
    method Delete(id: int) returns (deleted: bool)
      modifies this
      ensures deleted <==> id in old(rows)
      ensures rows == old(rows) - {id}
    {
      if id !in rows {
        return false;
      }
      rows := rows - {id};
      return true;
    }

    /** `add_item`: false and no change for an unknown user; otherwise the
        commands are appended to the server's list. */
    method AddItem(id: int, server: string, items: Items) returns (added: bool)
      modifies this
      ensures added <==> id in old(rows)
      ensures added ==> rows == old(rows)[id := AddedItems(old(rows)[id], server, items)]
      ensures !added ==> rows == old(rows)
    {
      if id !in rows {
        return false;
      }
      var u := rows[id];
      var itemList := AsList(items);
      var data: Inventory := if u.inventory.Some? then u.inventory.value else map[];
      var username := OrEmpty(u.username);
      var uuid := OrEmpty(u.uuid);
      var processed := ProcessItems(itemList, username, uuid);
      if server !in data {
        data := data[server := processed];
      } else {
        data := data[server := data[server] + processed];
      }
      rows := rows[id := u.(inventory := Some(data))];
      return true;
    }

    /** The service's `create_or_update_user`. */
    method CreateOrUpdateUser(data: User, preserve: bool, servers: seq<string>) returns (r: Upsert)
      modifies this
      ensures r == CreateOrUpdate(old(rows), data, preserve, servers)
      ensures r.Created? ==> rows == old(rows)[data.id := data]
      ensures r.Updated? ==> rows == old(rows)[data.id := r.user]
      ensures r.Rejected? ==> rows == old(rows)
    {
      if data.id !in rows {
        Create(data);
        return Created(data);
      }
      var existing := rows[data.id];
      var s := data;
      if preserve {
        s := Merge(data, existing);
        var errors := Errors(s, servers);
        if errors != {} {
          return Rejected(errors);
        }
      }
      var updated, flushed := Update(data.id, s);
      return Updated(updated.value, flushed);
    }

    /** The service's `delete_user`: the repository's answer. */
    method DeleteUser(id: int) returns (deleted: bool)
      modifies this
      ensures deleted <==> id in old(rows)
      ensures rows == old(rows) - {id}
    {
      deleted := Delete(id);
    }
  }
}
