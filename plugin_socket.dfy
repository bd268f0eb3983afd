// The plugin side of the connection: the table that routes incoming frames
// to annotated handler methods, the reconnection schedule that runs after
// the connection closes, and the authentication frame sent when it opens.
// Reflection, JSON parsing and the executor thread are inputs here: a
// class's public methods and their annotations are given as values, the
// parse of a frame as a `Document`, and each timer firing as a call.
module PluginSocket {
  import opened Common
  import opened WireSchemas
  import opened Bridge

  // ---------------------------------------------------------------------
  // Action dispatch

  /** The schema class an annotation names; `RawText` is the default `BaseSchema`. */
  datatype SchemaClass = RawText | Typed(name: string)

  /** One `@WebSocketAction(value, schema)` annotation. */
  datatype Annotation = Annotation(action: string, schema: SchemaClass)

  /** A public method of a registered class with its annotations, in declaration order. */
  datatype PublicMethod = PublicMethod(name: string, annotations: seq<Annotation>)

  /** A table entry: the registered object, the method to invoke, the schema to bind. */
  datatype ActionMethod = ActionMethod(instance: int, member: string, schema: SchemaClass)

  /** The entries one method contributes, one per annotation. */
  function MethodEntries(instance: int, m: PublicMethod): (r: seq<(string, ActionMethod)>)
    ensures |r| == |m.annotations|
    ensures forall i :: 0 <= i < |r| ==>
              r[i] == (m.annotations[i].action, ActionMethod(instance, m.name, m.annotations[i].schema))
  {
    seq(|m.annotations|, i requires 0 <= i < |m.annotations| =>
      (m.annotations[i].action, ActionMethod(instance, m.name, m.annotations[i].schema)))
  }

  /** The entries a class contributes, method by method. */
  function Entries(instance: int, methods: seq<PublicMethod>): seq<(string, ActionMethod)>
  {
    if methods == [] then []
    else Entries(instance, methods[..|methods| - 1]) + MethodEntries(instance, methods[|methods| - 1])
  }

  /** Every entry of a class names that object and one of its annotated
      methods, and every annotation of every method has an entry. */
  lemma {:induction false} EntriesOfClass(instance: int, methods: seq<PublicMethod>)
    ensures forall e :: e in Entries(instance, methods) ==>
              e.1.instance == instance
              && exists m, a :: m in methods && a in m.annotations && e == (a.action, ActionMethod(instance, m.name, a.schema))
    ensures forall m, a :: m in methods && a in m.annotations ==>
              (a.action, ActionMethod(instance, m.name, a.schema)) in Entries(instance, methods)
  {
    if methods != [] {
      var init := methods[..|methods| - 1];
      var last := methods[|methods| - 1];
      EntriesOfClass(instance, init);
      assert methods == init + [last];
      var es := MethodEntries(instance, last);
      forall e | e in es
        ensures exists m, a :: m in methods && a in m.annotations && e == (a.action, ActionMethod(instance, m.name, a.schema))
      {
        var i :| 0 <= i < |es| && es[i] == e;
        assert last.annotations[i] in last.annotations;
      }
      forall m, a | m in methods && a in m.annotations
        ensures (a.action, ActionMethod(instance, m.name, a.schema)) in Entries(instance, methods)
      {
        if m !in init {
          assert m == last;
          var i :| 0 <= i < |m.annotations| && m.annotations[i] == a;
          assert es[i] == (a.action, ActionMethod(instance, m.name, a.schema));
        }
      }
    }
  }

  /** `put` for each entry in turn. */
  function PutAll(t: map<string, ActionMethod>, es: seq<(string, ActionMethod)>): map<string, ActionMethod>
  {
    if es == [] then t else PutAll(t, es[..|es| - 1])[es[|es| - 1].0 := es[|es| - 1].1]
  }

  /** After the puts, the table holds the old actions and every entry's. */
  lemma {:induction false} PutAllKeys(t: map<string, ActionMethod>, es: seq<(string, ActionMethod)>)
    ensures PutAll(t, es).Keys == t.Keys + (set i | 0 <= i < |es| :: es[i].0)
  {
    if es != [] {
      var init := es[..|es| - 1];
      PutAllKeys(t, init);
      assert forall i :: 0 <= i < |init| ==> init[i] == es[i];
      assert (set i | 0 <= i < |es| :: es[i].0) == (set i | 0 <= i < |init| :: init[i].0) + {es[|es| - 1].0};
    }
  }

  /** An action without an entry keeps its old value. */
  lemma {:induction false} PutAllKeeps(t: map<string, ActionMethod>, es: seq<(string, ActionMethod)>, a: string)
    requires a in t && forall i :: 0 <= i < |es| ==> es[i].0 != a
    ensures a in PutAll(t, es) && PutAll(t, es)[a] == t[a]
  {
    if es != [] {
      PutAllKeeps(t, es[..|es| - 1], a);
    }
  }

  /** The last entry for an action is the one the table keeps. */
  lemma {:induction false} PutAllLast(t: map<string, ActionMethod>, es: seq<(string, ActionMethod)>, i: int)
    requires 0 <= i < |es| && forall j :: i < j < |es| ==> es[j].0 != es[i].0
    ensures es[i].0 in PutAll(t, es) && PutAll(t, es)[es[i].0] == es[i].1
  {
    if i < |es| - 1 {
      var init := es[..|es| - 1];
      assert init[i] == es[i];
      PutAllLast(t, init, i);
    }
  }

  /** Whether some method of the class carries an annotation. */
  predicate AnyAnnotated(methods: seq<PublicMethod>)
  {
    exists i :: 0 <= i < |methods| && |methods[i].annotations| > 0
  }

  lemma AnyAnnotatedStep(methods: seq<PublicMethod>, i: int)
    requires 0 <= i < |methods|
    ensures AnyAnnotated(methods[..i + 1]) <==> AnyAnnotated(methods[..i]) || |methods[i].annotations| > 0
  {
    assert methods[..i + 1][i] == methods[i];
    assert forall k :: 0 <= k < i ==> methods[..i + 1][k] == methods[..i][k];
  }

  /** Giving the client to an object again changes nothing. */
  lemma ClientStep(start: map<int, Option<int>>, before: map<int, Option<int>>, after: map<int, Option<int>>,
                   instance: int, client: Option<int>, had: bool, gives: bool)
    requires before == if had then start[instance := client] else start
    requires after == if gives then before[instance := client] else before
    ensures after == if had || gives then start[instance := client] else start
  {
    if had && gives {
      assert before[instance := client] == start[instance := client];
    }
  }

  lemma EntriesStep(instance: int, methods: seq<PublicMethod>, i: int)
    requires 0 <= i < |methods|
    ensures Entries(instance, methods[..i + 1]) == Entries(instance, methods[..i]) + MethodEntries(instance, methods[i])
  {
    assert methods[..i + 1][..i] == methods[..i];
  }

  /** Putting two runs of entries is putting their concatenation. */
  lemma {:induction false} PutAllAppend(t: map<string, ActionMethod>, a: seq<(string, ActionMethod)>, b: seq<(string, ActionMethod)>)
    ensures PutAll(PutAll(t, a), b) == PutAll(t, a + b)
  {
    if b == [] {
      assert a + b == a;
    } else {
      PutAllAppend(t, a, b[..|b| - 1]);
      assert (a + b)[..|a + b| - 1] == a + b[..|b| - 1];
    }
  }

  /** What a frame's text parses to, as far as dispatch looks at it. */
  datatype ActionValue = Missing | NotPrimitive | Primitive(text: string)
  datatype Document = Malformed | NotAnObject | JsonObject(action: ActionValue)

  /** The argument a handler method receives. */
  datatype Argument = Text(message: string) | Bound(schema: string, message: string)

  /** A reflective call that was made. */
  datatype Invocation = Invocation(target: ActionMethod, arg: Argument)

  /**
   * `handleMessage`: the call made for a frame and whether `true` is
   * returned. `bindOk` is whether the frame binds to the entry's schema
   * class; `invokeOk` is whether the method returns without throwing.
   */
  function Dispatch(actions: map<string, ActionMethod>, message: string, doc: Document, bindOk: bool, invokeOk: bool)
    : (r: (bool, Option<Invocation>))
    ensures r.1.Some? <==> doc.JsonObject? && doc.action.Primitive? && doc.action.text in actions
                           && (actions[doc.action.text].schema.RawText? || bindOk)
    ensures r.1.Some? ==> r.1.value.target == actions[doc.action.text]
    ensures r.1.Some? ==> (r.1.value.arg == Text(message) <==> actions[doc.action.text].schema.RawText?)
    ensures r.1.Some? && actions[doc.action.text].schema.Typed? ==>
              r.1.value.arg == Bound(actions[doc.action.text].schema.name, message)
    ensures r.0 <==> r.1.Some? && invokeOk
  {
    match doc
    case Malformed => (false, None)
    case NotAnObject => (false, None)
    case JsonObject(action) =>
      if !action.Primitive? then (false, None)
      else if action.text !in actions then (false, None)
      else
        var entry := actions[action.text];
        if entry.schema.Typed? && !bindOk then (false, None)
        else
          var arg := if entry.schema.Typed? then Bound(entry.schema.name, message) else Text(message);
          (invokeOk, Some(Invocation(entry, arg)))
  }

  /** The handler: its table, its client, and the client each registered
      client-aware object was handed. */
  class ActionHandler {
    var actions: map<string, ActionMethod>
    var client: Option<int>
    var clientOf: map<int, Option<int>>

    constructor()
      ensures actions == map[] && client.None? && clientOf == map[]
    {
      actions := map[];
      client := None;
      clientOf := map[];
    }

    method SetClient(c: int)
      modifies this
      ensures client == Some(c) && actions == old(actions) && clientOf == old(clientOf)
    {
      client := Some(c);
    }

    /** The inner loop of `registerClass`: one `put` per annotation of a method. */
    method PutMethod(instance: int, m: PublicMethod)
      modifies this
      ensures actions == PutAll(old(actions), MethodEntries(instance, m))
      ensures client == old(client) && clientOf == old(clientOf)
    {
      ghost var es := MethodEntries(instance, m);
      var j := 0;
      while j < |m.annotations|
        invariant 0 <= j <= |m.annotations|
        invariant actions == PutAll(old(actions), es[..j])
        invariant client == old(client) && clientOf == old(clientOf)
      {
        assert es[..j + 1][..j] == es[..j];
        actions := actions[m.annotations[j].action := ActionMethod(instance, m.name, m.annotations[j].schema)];
        j := j + 1;
      }
      assert es[..j] == es;
    }

    /** `registerClass`: every annotation of every public method is put into
        the table; a client-aware object with an annotated method gets the client. */
    method RegisterClass(instance: int, aware: bool, methods: seq<PublicMethod>)
      modifies this
      ensures actions == PutAll(old(actions), Entries(instance, methods))
      ensures clientOf == if aware && AnyAnnotated(methods) then old(clientOf)[instance := client] else old(clientOf)
      ensures client == old(client)
    {
      var i := 0;
      while i < |methods|
        invariant 0 <= i <= |methods|
        invariant actions == PutAll(old(actions), Entries(instance, methods[..i]))
        invariant clientOf == if aware && AnyAnnotated(methods[..i]) then old(clientOf)[instance := client] else old(clientOf)
        invariant client == old(client)
      {
        var m := methods[i];
        PutMethod(instance, m);
        PutAllAppend(old(actions), Entries(instance, methods[..i]), MethodEntries(instance, m));
        EntriesStep(instance, methods, i);
        ghost var before := clientOf;
        if |m.annotations| > 0 && aware {
          clientOf := clientOf[instance := client];
        }
        AnyAnnotatedStep(methods, i);
        ClientStep(old(clientOf), before, clientOf, instance, client,
                   aware && AnyAnnotated(methods[..i]), |m.annotations| > 0 && aware);
        assert actions == PutAll(old(actions), Entries(instance, methods[..i + 1]));
        i := i + 1;
      }
      assert methods[..i] == methods;
    }

    /** `handleMessage` on the current table. */
    method HandleMessage(message: string, doc: Document, bindOk: bool, invokeOk: bool) returns (handled: bool, call: Option<Invocation>)
      ensures (handled, call) == Dispatch(actions, message, doc, bindOk, invokeOk)
    {
      if !doc.JsonObject? || !doc.action.Primitive? {
        return false, None;
      }
      var action := doc.action.text;
      if action !in actions {
        return false, None;
      }
      var entry := actions[action];
      if entry.schema.Typed? {
        if !bindOk {
          return false, None;
        }
        call := Some(Invocation(entry, Bound(entry.schema.name, message)));
      } else {
        call := Some(Invocation(entry, Text(message)));
      }
      handled := invokeOk;
    }
  }

  /** After registration, a frame naming an action reaches the method whose
      annotation for it came last, with the raw text under the default schema. */
  lemma RegisteredActionReached(t: map<string, ActionMethod>, instance: int, methods: seq<PublicMethod>,
                                k: int, message: string)
    requires var es := Entries(instance, methods);
             0 <= k < |es| && (forall j :: k < j < |es| ==> es[j].0 != es[k].0) && es[k].1.schema.RawText?
    ensures var es := Entries(instance, methods);
            Dispatch(PutAll(t, es), message, JsonObject(Primitive(es[k].0)), false, true)
              == (true, Some(Invocation(es[k].1, Text(message))))
  {
    PutAllLast(t, Entries(instance, methods), k);
  }

  /** A frame whose action no registered class annotates is refused, and
      nothing is called. */
  lemma UnannotatedActionRefused(instance: int, methods: seq<PublicMethod>, action: string, message: string,
                                 bindOk: bool, invokeOk: bool)
    requires forall m, a :: m in methods && a in m.annotations ==> a.action != action
    ensures Dispatch(PutAll(map[], Entries(instance, methods)), message, JsonObject(Primitive(action)), bindOk, invokeOk)
              == (false, None)
  {
    EntriesOfClass(instance, methods);
    var es := Entries(instance, methods);
    PutAllKeys(map[], es);
    forall i | 0 <= i < |es|
      ensures es[i].0 != action
    {
      assert es[i] in es;
    }
  }

  // ---------------------------------------------------------------------
  // Reconnection schedule

  const MaxAttempts: int := 10
  const InitialDelayMs: int := 5000
  const MaxDelayMs: int := 60000

  function Pow2(k: nat): (r: nat)
    ensures r >= 1
  {
    if k == 0 then 1 else 2 * Pow2(k - 1)
  }

  function Min(a: int, b: int): int { if a <= b then a else b }

  /** The delay before the next attempt after attempt `n` failed, without
      jitter: 5 s doubled per attempt, capped at one minute. The attempt
      count starts at 1, so the shift is never negative. */
  function BaseDelay(n: int): (r: int)
    requires n >= 1
    ensures InitialDelayMs <= r <= MaxDelayMs
    ensures n >= 5 ==> r == MaxDelayMs
  {
    BaseDelayCapped(n);
    Min(MaxDelayMs, InitialDelayMs * Pow2(Min(n - 1, 30)))
  }

  lemma BaseDelayCapped(n: int)
    requires n >= 1
    ensures n >= 5 ==> InitialDelayMs * Pow2(Min(n - 1, 30)) >= MaxDelayMs
  {
    if n >= 5 {
      Pow2Mono(4, Min(n - 1, 30));
    }
  }

  lemma {:induction false} Pow2Mono(a: nat, b: nat)
    requires a <= b
    ensures Pow2(a) <= Pow2(b)
  {
    if a < b {
      Pow2Mono(a, b - 1);
    }
  }

  /** The schedule doubles the wait after each failure until it reaches the cap. */
  lemma BackoffDoubles(n: int)
    requires n >= 1
    ensures BaseDelay(n + 1) == Min(MaxDelayMs, 2 * BaseDelay(n))
    ensures BaseDelay(1) == 5000 && BaseDelay(2) == 10000 && BaseDelay(3) == 20000 && BaseDelay(4) == 40000
  {
    if n >= 5 {
    } else {
      assert Pow2(Min(n, 30)) == 2 * Pow2(Min(n - 1, 30));
    }
  }

  /** The jitter: `(long) (base * 0.2 * random)` for `random` in [0, 1). */
  function Jitter(base: int, random: real): (j: int)
    requires base >= 0 && 0.0 <= random < 1.0
    ensures 0 <= j
    ensures base > 0 ==> 5 * j < base
  {
    JitterBelow(base, random);
    ((base as real) * 0.2 * random).Floor
  }

  lemma JitterBelow(base: int, random: real)
    requires base >= 0 && 0.0 <= random < 1.0
    ensures 0 <= ((base as real) * 0.2 * random).Floor
    ensures base > 0 ==> 5 * ((base as real) * 0.2 * random).Floor < base
  {
    var b := (base as real) * 0.2;
    var x := b * random;
    ScaleBelow(b, random);
    FloorBelow(x, b, base);
  }

  lemma FloorBelow(x: real, b: real, base: int)
    requires 0.0 <= x && 5.0 * b == base as real && (base > 0 ==> x < b)
    ensures 0 <= x.Floor
    ensures base > 0 ==> 5 * x.Floor < base
  {
    assert (x.Floor as real) <= x;
  }

  /** Scaling by a factor in [0, 1) keeps a non-negative value non-negative
      and a positive one strictly smaller. */
  lemma ScaleBelow(b: real, random: real)
    requires b >= 0.0 && 0.0 <= random < 1.0
    ensures 0.0 <= b * random
    ensures b > 0.0 ==> b * random < b
  {
    assert b - b * random == b * (1.0 - random);
  }

  /** What one reconnection attempt reports. */
  datatype AttemptOutcome = Reconnected | Refused | Threw

  /** The reconnection state: the flag, this sequence's attempt counter, and
      the delay of the pending attempt, if one is scheduled. */
  datatype Reconnect = Reconnect(reconnecting: bool, attempts: int, pending: Option<int>)

  /** `onClose`: start a sequence unless one is running. */
  function OnClose(s: Reconnect): (r: Reconnect)
    ensures s.reconnecting ==> r == s
    ensures !s.reconnecting ==> r.reconnecting && r.attempts == 0 && r.pending == Some(InitialDelayMs)
  {
    if s.reconnecting then s else Reconnect(true, 0, Some(InitialDelayMs))
  }

  /** One run of the scheduled attempt; `open` is whether the connection is
      already open and `random` the value `Math.random` draws. */
  function Fire(s: Reconnect, open: bool, outcome: AttemptOutcome, random: real): (r: Reconnect)
    requires s.attempts >= 0 && 0.0 <= random < 1.0
    ensures r.attempts == s.attempts + 1
    ensures r.attempts > MaxAttempts ==> !r.reconnecting && r.pending.None?
    ensures r.attempts <= MaxAttempts && open ==> !r.reconnecting && r.pending.None?
    ensures r.attempts <= MaxAttempts && !open && outcome.Reconnected? ==> !r.reconnecting && r.pending.None?
    ensures r.attempts <= MaxAttempts && !open && outcome.Refused? ==>
              r.reconnecting == s.reconnecting && r.pending.Some?
              && BaseDelay(r.attempts) <= r.pending.value && 5 * r.pending.value < 6 * BaseDelay(r.attempts)
    ensures r.attempts <= MaxAttempts && !open && outcome.Threw? ==>
              r.reconnecting == s.reconnecting && r.pending == Some(BaseDelay(r.attempts))
  {
    var n := s.attempts + 1;
    if n > MaxAttempts then Reconnect(false, n, None)
    else if open then Reconnect(false, n, None)
    else match outcome
      case Reconnected => Reconnect(false, n, None)
      case Refused =>
        var base := BaseDelay(n);
        Reconnect(s.reconnecting, n, Some(base + Jitter(base, random)))
      case Threw => Reconnect(s.reconnecting, n, Some(BaseDelay(n)))
  }

  /** One timer firing as the environment supplies it. */
  datatype Firing = Firing(open: bool, outcome: AttemptOutcome, random: real)

  predicate Drawn(fs: seq<Firing>)
  {
    forall i :: 0 <= i < |fs| ==> 0.0 <= fs[i].random < 1.0
  }

  /** Run the pending attempt for each firing, as long as one is scheduled. */
  function FireAll(s: Reconnect, fs: seq<Firing>): (r: Reconnect)
    requires s.attempts >= 0 && Drawn(fs)
    decreases |fs|
  {
    if fs == [] || s.pending.None? then s
    else FireAll(Fire(s, fs[0].open, fs[0].outcome, fs[0].random), fs[1..])
  }

  /** A sequence makes at most ten attempts: whatever each attempt reports,
      no attempt is pending after eleven firings, and the flag is clear. */
  lemma {:induction false} SequenceEnds(s: Reconnect, fs: seq<Firing>)
    requires 0 <= s.attempts && Drawn(fs)
    requires s.pending.None? ==> !s.reconnecting
    requires s.attempts > MaxAttempts ==> s.pending.None?
    requires |fs| >= MaxAttempts + 1 - s.attempts
    ensures FireAll(s, fs).pending.None? && !FireAll(s, fs).reconnecting
    decreases |fs|
  {
    if fs != [] && s.pending.Some? {
      var s1 := Fire(s, fs[0].open, fs[0].outcome, fs[0].random);
      SequenceEnds(s1, fs[1..]);
    }
  }

  /** From a close with no sequence running: the first attempt waits 5 s, at
      most eleven attempts run, and after eleven firings the sequence is over. */
  lemma SequenceFromClose(s: Reconnect, fs: seq<Firing>)
    requires !s.reconnecting && Drawn(fs)
    ensures OnClose(s).pending == Some(InitialDelayMs)
    ensures FireAll(OnClose(s), fs).attempts <= MaxAttempts + 1
    ensures |fs| >= MaxAttempts + 1 ==> FireAll(OnClose(s), fs).pending.None? && !FireAll(OnClose(s), fs).reconnecting
  {
    SequenceBounded(OnClose(s), fs);
    if |fs| >= MaxAttempts + 1 {
      SequenceEnds(OnClose(s), fs);
    }
  }

  lemma {:induction false} SequenceBounded(s: Reconnect, fs: seq<Firing>)
    requires 0 <= s.attempts <= MaxAttempts + 1 && Drawn(fs)
    requires s.attempts > MaxAttempts ==> s.pending.None?
    ensures FireAll(s, fs).attempts <= MaxAttempts + 1
    decreases |fs|
  {
    if fs != [] && s.pending.Some? {
      SequenceBounded(Fire(s, fs[0].open, fs[0].outcome, fs[0].random), fs[1..]);
    }
  }

  /** The client's reconnection fields. */
  class ReconnectingClient {
    var reconnecting: bool
    var attempts: int
    var pending: Option<int>

    constructor()
      ensures !reconnecting && attempts == 0 && pending.None?
    {
      reconnecting := false;
      attempts := 0;
      pending := None;
    }

    function State(): Reconnect
      reads this
    {
      Reconnect(reconnecting, attempts, pending)
    }

    /** `onClose`: the compare-and-set on the flag, a fresh counter, and the
        first attempt scheduled after 5 s. */
    method Close()
      modifies this
      ensures State() == OnClose(old(State()))
    {
      if reconnecting {
        return;
      }
      reconnecting := true;
      attempts := 0;
      pending := Some(InitialDelayMs);
    }

    /** The scheduled task's `run`. */
    method RunAttempt(open: bool, outcome: AttemptOutcome, random: real)
      requires attempts >= 0 && 0.0 <= random < 1.0
      modifies this
      ensures State() == Fire(old(State()), open, outcome, random)
    {
      attempts := attempts + 1;
      var n := attempts;
      if n > MaxAttempts {
        reconnecting := false;
        pending := None;
        return;
      }
      if open {
        reconnecting := false;
        pending := None;
        return;
      }
      match outcome {
        case Reconnected =>
          reconnecting := false;
          pending := None;
        case Refused =>
          var base := Min(MaxDelayMs, InitialDelayMs * Pow2(Min(n - 1, 30)));
          var jitter := ((base as real) * 0.2 * random).Floor;
          pending := Some(base + jitter);
        case Threw =>
          pending := Some(Min(MaxDelayMs, InitialDelayMs * Pow2(Min(n - 1, 30))));
      }
    }
  }

  // ---------------------------------------------------------------------
  // Authentication frame

  /** The frame `authenticate` sends: its action, the password, and the servers. */
  datatype AuthFrame = AuthFrame(action: string, password: string, serverList: seq<string>)

  /** `authenticate`: the servers are copied into the JSON array one by one. */
  method Authenticate(password: string, servers: seq<string>) returns (frame: AuthFrame)
    ensures frame.action == "authenticate" && frame.password == password && frame.serverList == servers
  {
    var serverArray: seq<string> := [];
    var i := 0;
    while i < |servers|
      invariant 0 <= i <= |servers|
      invariant serverArray == servers[..i]
    {
      serverArray := serverArray + [servers[i]];
      i := i + 1;
    }
    frame := AuthFrame("authenticate", password, serverArray);
  }

  /** The bot's reading of the frame. */
  function Received(f: AuthFrame): AuthData
  {
    AuthData(f.password, f.serverList)
  }

  /** With the configured password the bot records the plugin's servers, in
      order and followed by "all"; with another it closes with 1008. */
  lemma AuthFrameAccepted(c: Conn, id: int, password: string, configured: string, servers: seq<string>)
    ensures var r := AuthEffect(c, id, Received(AuthFrame("authenticate", password, servers)), configured);
            (password == configured ==> r.servers == c.servers + servers + ["all"] && HasClient(r.clients, id))
            && (password != configured ==> !r.open && r.servers == c.servers)
  {
    if password == configured {
      PutClientHas(c.clients, id, AuthData(password, servers), id);
    }
  }
}
