// The plugin's settings: the WebSocket connection values and their
// validation, and the per-command alias and syntax tables read from the
// configuration file. Configuration lookups are given as maps.
module BridgeSettings {
  import opened Common
  import opened TimeUnits

  /** The six moderation commands the plugin configures. */
  const Commands: set<string> := {"kick", "ban", "tempban", "unban", "timeout", "untimeout"}

  // ---------------------------------------------------------------------
  // WebSocket connection settings

  /** `WebSocket.init`'s checks, in order: host, port present, port range,
      password. */
  function WebSocketError(host: Option<string>, port: Option<int>, password: Option<string>): (r: Option<string>)
    ensures r.None? <==> host.Some? && host.value != "" && port.Some? && 1 <= port.value <= 65535
                         && password.Some? && password.value != ""
    ensures host.None? || host.value == "" ==> r == Some("WebSocket host cannot be empty")
    ensures host.Some? && host.value != "" && port.None? ==> r == Some("WebSocket port cannot be null")
    ensures host.Some? && host.value != "" && port.Some? && !(1 <= port.value <= 65535) ==>
              r == Some("Invalid WebSocket port: " + IntString(port.value) + " (must be between 1-65535)")
    ensures (host.Some? && host.value != "" && port.Some? && 1 <= port.value <= 65535
             && (password.None? || password.value == "")) ==> r == Some("WebSocket password cannot be empty")
  {
    if host.None? || host.value == "" then Some("WebSocket host cannot be empty")
    else if port.None? then Some("WebSocket port cannot be null")
    else if port.value < 1 || port.value > 65535 then
      Some("Invalid WebSocket port: " + IntString(port.value) + " (must be between 1-65535)")
    else if password.None? || password.value == "" then Some("WebSocket password cannot be empty")
    else None
  }

  /** The connection settings, assigned as read and then checked. */
  class WebSocket {
    var host: Option<string>
    var port: Option<int>
    var password: Option<string>

    constructor()
      ensures host.None? && port.None? && password.None?
    {
      host := None;
      port := None;
      password := None;
    }

    /** `init`: the three values are stored before the checks run, so they
        stay stored when a check throws; the error is the exception's message. */
    method Init(readHost: Option<string>, readPort: Option<int>, readPassword: Option<string>) returns (error: Option<string>)
      modifies this
      ensures host == readHost && port == readPort && password == readPassword
      ensures error == WebSocketError(readHost, readPort, readPassword)
    {
      host := readHost;
      port := readPort;
      password := readPassword;
      if host.None? || host.value == "" {
        return Some("WebSocket host cannot be empty");
      }
      if port.None? {
        return Some("WebSocket port cannot be null");
      }
      if port.value < 1 || port.value > 65535 {
        return Some("Invalid WebSocket port: " + IntString(port.value) + " (must be between 1-65535)");
      }
      if password.None? || password.value == "" {
        return Some("WebSocket password cannot be empty");
      }
      return None;
    }
  }

  // ---------------------------------------------------------------------
  // Alias and syntax tables

  /** `order` lists every command once: the iteration order of the command set. */
  predicate Enumerates(order: seq<string>)
  {
    (set c | c in order) == Commands
    && forall i, j :: 0 <= i < j < |order| ==> order[i] != order[j]
  }

  /** The alias table: each command's configured aliases, in the order its
      set yields them; a command without an entry has none. */
  function AliasesTable(order: seq<string>, configured: map<string, seq<string>>): (r: map<string, seq<string>>)
    ensures r.Keys == set c | c in order
    ensures forall c :: c in r ==> r[c] == if c in configured then configured[c] else []
  {
    map c | c in order :: if c in configured then configured[c] else []
  }

  /** The alias loop of the static block. */
  method LoadAliases(order: seq<string>, configured: map<string, seq<string>>) returns (aliases: map<string, seq<string>>)
    ensures aliases == AliasesTable(order, configured)
  {
    aliases := map[];
    var i := 0;
    while i < |order|
      invariant 0 <= i <= |order|
      invariant aliases.Keys == set c | c in order[..i]
      invariant forall c :: c in aliases ==> aliases[c] == if c in configured then configured[c] else []
    {
      TakeSnoc(order, i);
      var c := order[i];
      aliases := aliases[c := if c in configured then configured[c] else []];
      i := i + 1;
    }
    assert order[..i] == order;
  }

  predicate SyntaxMissing(configured: map<string, string>, c: string)
  {
    c !in configured || configured[c] == ""
  }

  /** The position of the first command without a syntax string, or the
      length of `order` when every command has one. */
  function FirstMissing(order: seq<string>, configured: map<string, string>): (r: nat)
    ensures r <= |order|
    ensures r < |order| ==> SyntaxMissing(configured, order[r])
    ensures forall j :: 0 <= j < r ==> !SyntaxMissing(configured, order[j])
  {
    if order == [] then 0
    else
      var init := order[..|order| - 1];
      var f := FirstMissing(init, configured);
      if f < |init| then f
      else if SyntaxMissing(configured, order[|order| - 1]) then |order| - 1
      else |order|
  }

  /** The syntax table: every command's syntax string; the first command
      in iteration order without one (missing or empty) aborts loading with
      an error naming it. */
  function SyntaxTable(order: seq<string>, configured: map<string, string>): (r: Result<map<string, string>>)
    ensures r.Ok? <==> forall c :: c in order ==> !SyntaxMissing(configured, c)
    ensures r.Ok? ==> r.value.Keys == (set c | c in order) && forall c :: c in r.value ==> r.value[c] == configured[c]
    ensures r.Err? ==> exists i :: 0 <= i < |order| && SyntaxMissing(configured, order[i])
                                   && (forall j :: 0 <= j < i ==> !SyntaxMissing(configured, order[j]))
                                   && r.error == "Missing syntax definition for command: " + order[i]
  {
    var f := FirstMissing(order, configured);
    if f < |order| then Err("Missing syntax definition for command: " + order[f])
    else Ok(map c | c in order :: configured[c])
  }

  /** The syntax loop of the static block. */
  method LoadSyntax(order: seq<string>, configured: map<string, string>) returns (r: Result<map<string, string>>)
    ensures r == SyntaxTable(order, configured)
  {
    var syntax: map<string, string> := map[];
    var i := 0;
    while i < |order|
      invariant 0 <= i <= |order|
      invariant forall j :: 0 <= j < i ==> !SyntaxMissing(configured, order[j])
      invariant syntax == map c | c in order[..i] :: configured[c]
    {
      var c := order[i];
      if c !in configured || configured[c] == "" {
        assert FirstMissing(order, configured) == i;
        return Err("Missing syntax definition for command: " + c);
      }
      TakeSnoc(order, i);
      syntax := syntax[c := configured[c]];
      i := i + 1;
    }
    assert order[..i] == order;
    return Ok(syntax);
  }

  /** Loading succeeds exactly when all six commands have a syntax string,
      and then every command has one. */
  lemma SyntaxCoversCommands(order: seq<string>, configured: map<string, string>)
    requires Enumerates(order)
    ensures SyntaxTable(order, configured).Ok? <==> forall c :: c in Commands ==> !SyntaxMissing(configured, c)
    ensures SyntaxTable(order, configured).Ok? ==> SyntaxTable(order, configured).value.Keys == Commands
  {
  }
}
