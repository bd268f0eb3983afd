// The plugin's handling of a moderation command typed on a Minecraft
// server: parse it, check the command's required parameters, and build the
// "command-executed" message the bot receives. The send itself is the
// returned message.
module CommandHandler {
  import opened Common
  import opened CommandParser
  import opened CommandEvents

  const ParamTarget := "target"
  const ParamDuration := "duration"
  const ParamReason := "reason"

  /** `registerCommands`: the required parameters of each command. */
  const DefaultSpecs: map<string, set<string>> :=
    map["kick" := {ParamTarget}, "ban" := {ParamTarget}, "tempban" := {ParamTarget, ParamDuration},
        "unban" := {ParamTarget}, "timeout" := {ParamTarget, ParamDuration}, "untimeout" := {ParamTarget}]

  /** Every required parameter has a non-empty value. */
  predicate ParamsGiven(c: ParsedCommand, required: set<string>)
  {
    forall q :: q in required ==> GetParameter(c, q).Some? && GetParameter(c, q).value != ""
  }

  /** `validateParameters` as written: the loop over the required names. */
  method ValidateParameters(c: ParsedCommand, required: set<string>) returns (ok: bool)
    ensures ok <==> ParamsGiven(c, required)
  {
    var rest := required;
    while rest != {}
      invariant rest <= required
      invariant forall q :: q in required - rest ==> GetParameter(c, q).Some? && GetParameter(c, q).value != ""
      decreases |rest|
    {
      var q :| q in rest;
      var value := GetParameter(c, q);
      if value.None? || value.value == "" {
        return false;
      }
      rest := rest - {q};
    }
    return true;
  }

  /** A value for the argument map: present and non-empty. */
  predicate Filled(v: Option<string>)
  {
    v.Some? && v.value != ""
  }

  lemma KeysDistinct()
    ensures ParamTarget != ParamDuration && ParamTarget != ParamReason && ParamDuration != ParamReason
  {
    assert |ParamTarget| != |ParamDuration| && |ParamReason| != |ParamDuration|;
    assert ParamTarget[0] != ParamReason[0];
  }

  /** The argument map from the three looked-up values: a key is present
      exactly when its value is non-empty. */
  function ArgMap(target: Option<string>, duration: Option<string>, reason: Option<string>): (r: map<string, string>)
    ensures r.Keys <= {ParamTarget, ParamDuration, ParamReason}
    ensures ParamTarget in r <==> Filled(target)
    ensures ParamTarget in r ==> r[ParamTarget] == target.value
    ensures ParamDuration in r <==> Filled(duration)
    ensures ParamDuration in r ==> r[ParamDuration] == duration.value
    ensures ParamReason in r <==> Filled(reason)
    ensures ParamReason in r ==> r[ParamReason] == reason.value
    ensures forall k :: k in r ==> r[k] != ""
  {
    KeysDistinct();
    var m1: map<string, string> := if Filled(target) then map[ParamTarget := target.value] else map[];
    var m2 := if Filled(duration) then m1[ParamDuration := duration.value] else m1;
    if Filled(reason) then m2[ParamReason := reason.value] else m2
  }

  /** `extractParameters`: target and duration by name, and the reason with
      every parameter after it. */
  function Extract(p: Parser, c: ParsedCommand): map<string, string>
  {
    ArgMap(GetParameter(c, ParamTarget), GetParameter(c, ParamDuration), CombinedNamed(p, c, ParamReason))
  }

  /** `extractParameters` as written: three guarded puts. */
  method ExtractParameters(p: Parser, c: ParsedCommand) returns (params: map<string, string>)
    ensures params == Extract(p, c)
  {
    params := map[];
    var target := GetParameter(c, ParamTarget);
    if Filled(target) {
      params := params[ParamTarget := target.value];
    }
    ghost var m1 := params;
    var duration := GetParameter(c, ParamDuration);
    if Filled(duration) {
      params := params[ParamDuration := duration.value];
    }
    ghost var m2 := params;
    var reason := GetCombinedNamedParameter(p, c, ParamReason);
    if Filled(reason) {
      params := params[ParamReason := reason.value];
    }
    ArgMapSteps(target, duration, reason, m1, m2, params);
  }

  /** The three guarded puts build exactly the argument map. */
  lemma ArgMapSteps(target: Option<string>, duration: Option<string>, reason: Option<string>,
                    m1: map<string, string>, m2: map<string, string>, m3: map<string, string>)
    requires m1 == if Filled(target) then map[ParamTarget := target.value] else map[]
    requires m2 == if Filled(duration) then m1[ParamDuration := duration.value] else m1
    requires m3 == if Filled(reason) then m2[ParamReason := reason.value] else m2
    ensures m3 == ArgMap(target, duration, reason)
  {
  }

  /** `processCommand`: the message sent for a typed command, or None when
      it does not parse, its type has no spec, or a required parameter is
      missing or empty (nothing is sent then and false is returned). */
  function Process(p: Parser, specs: map<string, set<string>>, message: Option<string>, executor: string): (r: Option<CommandExecuted>)
    ensures r.Some? <==> (ParseCommand(p, message).Some?
                          && Lower(ParseCommand(p, message).value.commandType) in specs
                          && ParamsGiven(ParseCommand(p, message).value, specs[Lower(ParseCommand(p, message).value.commandType)]))
    ensures r.Some? ==> r.value.executor == Some(executor)
                        && r.value.commandType == Lower(ParseCommand(p, message).value.commandType)
                        && r.value.args == Some(Extract(p, ParseCommand(p, message).value))
  {
    var c := ParseCommand(p, message);
    if c.None? then None
    else
      var ty := Lower(c.value.commandType);
      if ty !in specs then None
      else if !ParamsGiven(c.value, specs[ty]) then None
      else Some(CommandExecuted(ty, Some(executor), Some(Extract(p, c.value))))
  }

  /** The handler and its table of command specs. */
  class Handler {
    var specs: map<string, set<string>>

    constructor()
      ensures specs == DefaultSpecs
    {
      specs := map[];
      new;
      RegisterCommand("kick", {ParamTarget});
      RegisterCommand("ban", {ParamTarget});
      RegisterCommand("tempban", {ParamTarget, ParamDuration});
      RegisterCommand("unban", {ParamTarget});
      RegisterCommand("timeout", {ParamTarget, ParamDuration});
      RegisterCommand("untimeout", {ParamTarget});
    }

    /** `registerCommand`: the command's required names, collected into a set. */
    method RegisterCommand(commandType: string, required: set<string>)
      modifies this
      ensures specs == old(specs)[commandType := required]
    {
      specs := specs[commandType := required];
    }

    /** `processCommand` as written; the returned message is what is sent,
        and `handled` is the method's result. */
    method ProcessCommand(p: Parser, message: Option<string>, executor: string) returns (handled: bool, sent: Option<CommandExecuted>)
      ensures sent == Process(p, specs, message, executor)
      ensures handled <==> sent.Some?
    {
      var c := ParseCommand(p, message);
      if c.None? {
        return false, None;
      }
      var ty := Lower(c.value.commandType);
      if ty !in specs {
        return false, None;
      }
      var ok := ValidateParameters(c.value, specs[ty]);
      if !ok {
        return false, None;
      }
      var params := ExtractParameters(p, c.value);
      return true, Some(CommandExecuted(ty, Some(executor), Some(params)));
    }
  }

  /** With the default specs, every message sent names a target, and a
      timed command (tempban, timeout) also a duration: the arguments the
      bot's handler reads. */
  lemma SentCarriesRequired(p: Parser, message: Option<string>, executor: string)
    requires Process(p, DefaultSpecs, message, executor).Some?
    ensures var e := Process(p, DefaultSpecs, message, executor).value;
            Given(Arg(e, ParamTarget))
            && (e.commandType in {"tempban", "timeout"} ==> Given(Arg(e, ParamDuration)))
            && e.commandType in DefaultSpecs
  {
    var e := Process(p, DefaultSpecs, message, executor).value;
    var c := ParseCommand(p, message).value;
    var ty := Lower(c.commandType);
    assert e.commandType == ty && ty in DefaultSpecs && ParamsGiven(c, DefaultSpecs[ty]);
    var args := Extract(p, c);
    assert e.args == Some(args);
    DefaultSpecsShape(ty);
    assert Filled(GetParameter(c, ParamTarget));
    assert ParamTarget in args;
    if ty in {"tempban", "timeout"} {
      assert Filled(GetParameter(c, ParamDuration));
      assert ParamDuration in args;
    }
  }

  /** Every command requires a target; the timed ones also a duration. */
  lemma DefaultSpecsShape(ty: string)
    requires ty in DefaultSpecs
    ensures ParamTarget in DefaultSpecs[ty]
    ensures ty in {"tempban", "timeout"} ==> ParamDuration in DefaultSpecs[ty]
  {
  }

  /** A parsed command that lacks a required parameter is never sent. */
  lemma MissingRequiredNotSent(p: Parser, message: Option<string>, executor: string, q: string)
    requires ParseCommand(p, message).Some?
    requires var ty := Lower(ParseCommand(p, message).value.commandType);
             ty in DefaultSpecs && q in DefaultSpecs[ty]
             && (GetParameter(ParseCommand(p, message).value, q).None? || GetParameter(ParseCommand(p, message).value, q).value == "")
    ensures Process(p, DefaultSpecs, message, executor).None?
  {
  }
}
