// Dotted-path lookups in the loaded settings and localization trees, and
// the per-locale filtering done when the localization files are loaded.
// A loaded JSON/pydantic object is a tree whose inner nodes have named
// attributes; file reads and JSON parsing are inputs.
module SettingsLookup {
  import opened Common

  /** A loaded value: a leaf, or an object with named attributes. */
  datatype Node = Leaf(text: string) | Obj(fields: map<string, Node>)

  /** One attribute access: only an object has attributes. */
  function Step(n: Node, name: string): (r: Option<Node>)
    ensures r.Some? <==> n.Obj? && name in n.fields
    ensures r.Some? ==> r.value == n.fields[name]
  {
    if n.Obj? && name in n.fields then Some(n.fields[name]) else None
  }

  /** Following the attribute names in order; None as soon as one is missing. */
  function Walk(n: Node, path: seq<string>): (r: Option<Node>)
    decreases |path|
  {
    if path == [] then Some(n)
    else
      match Walk(n, path[..|path| - 1])
      case None => None
      case Some(m) => Step(m, path[|path| - 1])
  }

  /** A walk along `p + q` is a walk along `p` followed by a walk along `q`. */
  lemma {:induction false} WalkAppend(n: Node, p: seq<string>, q: seq<string>)
    ensures Walk(n, p + q) == (match Walk(n, p) case None => None case Some(m) => Walk(m, q))
    decreases |q|
  {
    if q == [] {
      assert p + q == p;
    } else {
      var q0 := q[..|q| - 1];
      assert (p + q)[..|p + q| - 1] == p + q0;
      WalkAppend(n, p, q0);
    }
  }

  /** Once a name on the path is missing, no longer path is found either. */
  lemma MissingPrefix(n: Node, p: seq<string>, q: seq<string>)
    requires Walk(n, p).None?
    ensures Walk(n, p + q).None?
  {
    WalkAppend(n, p, q);
  }

  /** The value at a path, or the caller's default. */
  function WalkOr(n: Node, path: seq<string>, default: Node): (r: Node)
    ensures Walk(n, path).Some? ==> r == Walk(n, path).value
    ensures Walk(n, path).None? ==> r == default
  {
    match Walk(n, path)
    case None => default
    case Some(v) => v
  }

  /** The attribute path named by a dotted key. */
  function PathOf(key: string): (r: seq<string>)
    ensures |r| >= 1 && forall i :: 0 <= i < |r| ==> '.' !in r[i]
  {
    Split(key, '.')
  }

  // ---------------------------------------------------------------------
  // Settings.get

  /** `Settings.get`: an error before the settings are loaded; otherwise the
      value at the key's dotted path, or the default when any attribute on
      the way is missing. */
  function SettingsGet(data: Option<Node>, key: string, default: Node): (r: Result<Node>)
    ensures data.None? <==> r == Err("Settings not loaded")
    ensures data.Some? && Walk(data.value, PathOf(key)).Some? ==> r == Ok(Walk(data.value, PathOf(key)).value)
    ensures data.Some? && Walk(data.value, PathOf(key)).None? ==> r == Ok(default)
  {
    if data.None? then Err("Settings not loaded")
    else Ok(WalkOr(data.value, PathOf(key), default))
  }

  /** `Settings.get` as the source computes it: split the key, then reassign
      the current value once per part. */
  method SettingsGetLoop(data: Option<Node>, key: string, default: Node) returns (r: Result<Node>)
    ensures r == SettingsGet(data, key, default)
  {
    if data.None? {
      return Err("Settings not loaded");
    }
    var parts := Split(key, '.');
    var value := data.value;
    var i := 0;
    while i < |parts|
      invariant 0 <= i <= |parts|
      invariant Walk(data.value, parts[..i]) == Some(value)
    {
      assert parts[..i + 1][..i] == parts[..i];
      if !(value.Obj? && parts[i] in value.fields) {
        MissingPrefix(data.value, parts[..i + 1], parts[i + 1..]);
        assert parts[..i + 1] + parts[i + 1..] == parts;
        return Ok(default);
      }
      value := value.fields[parts[i]];
      i := i + 1;
    }
    assert parts[..i] == parts;
    return Ok(value);
  }

  /** A key written as dot-joined attribute names reaches exactly the value
      at those names; a longer key continues from where the shorter stopped. */
  lemma DottedKeyComposes(root: Node, p: seq<string>, q: seq<string>, default: Node)
    requires |p| >= 1 && |q| >= 1
    requires forall i :: 0 <= i < |p| ==> '.' !in p[i]
    requires forall i :: 0 <= i < |q| ==> '.' !in q[i]
    ensures SettingsGet(Some(root), Join(p + q, "."), default)
            == (match Walk(root, p) case None => Ok(default) case Some(m) => Ok(WalkOr(m, q, default)))
  {
    var pq := p + q;
    assert forall i :: 0 <= i < |pq| ==> '.' !in pq[i] by {
      forall i | 0 <= i < |pq| ensures '.' !in pq[i] {
        if i < |p| { assert pq[i] == p[i]; } else { assert pq[i] == q[i - |p|]; }
      }
    }
    SplitJoin(pq, '.');
    assert PathOf(Join(pq, ".")) == pq;
    WalkAppend(root, p, q);
  }

  // ---------------------------------------------------------------------
  // Localization

  /** The answer of `Localization.get`: one value, or one per locale. */
  datatype Answer = Single(value: Node) | PerLocale(values: map<string, Node>)

  /** `Localization.get` on loaded data. Locale "all" on non-empty data maps
      every locale to its value or the default; otherwise the requested
      locale (the guild's when none is given) is looked up, and an unknown
      locale or a missing path gives the default. */
  function LocalizationGet(data: map<string, Node>, key: string, locale: Option<string>,
                           guild: string, default: Node): (r: Answer)
    ensures locale == Some("all") && |data| > 0 ==>
              r.PerLocale? && r.values.Keys == data.Keys
              && forall loc :: loc in data ==> r.values[loc] == WalkOr(data[loc], PathOf(key), default)
    ensures !(locale == Some("all") && |data| > 0) ==>
              var k := if locale.Some? then locale.value else guild;
              r == Single(if k in data then WalkOr(data[k], PathOf(key), default) else default)
  {
    if locale == Some("all") && |data| > 0 then
      PerLocale(map loc | loc in data :: WalkOr(data[loc], PathOf(key), default))
    else
      var k := if locale.Some? then locale.value else guild;
      if k in data then Single(WalkOr(data[k], PathOf(key), default)) else Single(default)
  }

  /** A locale that lacks the path answers with the default, both on its own
      and inside the "all" map. */
  lemma MissingKeyGivesDefault(data: map<string, Node>, key: string, loc: string, guild: string, default: Node)
    requires loc in data && Walk(data[loc], PathOf(key)).None?
    ensures LocalizationGet(data, key, Some(loc), guild, default) == Single(default)
              || loc == "all"
    ensures LocalizationGet(data, key, Some("all"), guild, default).PerLocale?
    ensures LocalizationGet(data, key, Some("all"), guild, default).values[loc] == default
  {
  }

  /** A file in the localization directory: its stem, its parsed JSON (None
      when it is not valid JSON), and whether it passes schema validation. */
  datatype LocaleFile = LocaleFile(stem: string, json: Option<Node>, validates: bool)

  /** A file that is stored: a known locale, parsed into an object that validates. */
  predicate Accepted(f: LocaleFile, known: set<string>)
  {
    f.stem in known && f.json.Some? && f.json.value.Obj? && f.validates
  }

  /** The stored tree: the parsed object with the `locale` attribute set to the stem. */
  function Stored(f: LocaleFile): Node
    requires f.json.Some? && f.json.value.Obj?
  {
    Obj(f.json.value.fields["locale" := Leaf(f.stem)])
  }

  /** The table after `load` has gone through the files in order. */
  function LoadedLocales(files: seq<LocaleFile>, known: set<string>): (r: map<string, Node>)
    ensures forall loc :: loc in r ==> loc in known
    ensures forall loc :: loc in r <==> exists i :: 0 <= i < |files| && files[i].stem == loc && Accepted(files[i], known)
  {
    if files == [] then map[]
    else
      var init := files[..|files| - 1];
      var f := files[|files| - 1];
      var r0 := LoadedLocales(init, known);
      assert forall i :: 0 <= i < |init| ==> init[i] == files[i];
      if Accepted(f, known) then r0[f.stem := Stored(f)] else r0
  }

  /** A stored locale carries its own name as its `locale` attribute. */
  lemma {:induction false} LoadedLocaleNamesItself(files: seq<LocaleFile>, known: set<string>, loc: string)
    requires loc in LoadedLocales(files, known)
    ensures Walk(LoadedLocales(files, known)[loc], ["locale"]) == Some(Leaf(loc))
    decreases |files|
  {
    var init := files[..|files| - 1];
    var f := files[|files| - 1];
    if Accepted(f, known) && f.stem == loc {
      assert Walk(Stored(f), []) == Some(Stored(f));
    } else {
      LoadedLocaleNamesItself(init, known, loc);
    }
  }

  /** The outcome of `load`: the process exits when the directory is missing. */
  datatype LoadOutcome = Exited | Loaded(data: map<string, Node>)

  /** The outcome of `get`: the process exits during the load, or an answer. */
  datatype Lookup = Exits | Answers(answer: Answer)

  /** The localization table and the guild locale used when none is given. */
  class Localization {
    var data: Option<map<string, Node>>

    constructor()
      ensures data.None?
    {
      data := None;
    }

    /** `load`: a missing directory ends the process; otherwise the table is
        reset and each accepted file stored under its stem. */
    method Load(dirExists: bool, files: seq<LocaleFile>, known: set<string>) returns (outcome: LoadOutcome)
      modifies this
      ensures !dirExists ==> outcome == Exited && data.None?
      ensures dirExists ==> outcome == Loaded(LoadedLocales(files, known)) && data == Some(outcome.data)
    {
      if !dirExists {
        data := None;
        return Exited;
      }
      var table: map<string, Node> := map[];
      var i := 0;
      while i < |files|
        invariant 0 <= i <= |files|
        invariant table == LoadedLocales(files[..i], known)
      {
        assert files[..i + 1][..i] == files[..i];
        var f := files[i];
        if f.stem in known && f.json.Some? && f.json.value.Obj? && f.validates {
          table := table[f.stem := Obj(f.json.value.fields["locale" := Leaf(f.stem)])];
        }
        i := i + 1;
      }
      assert files[..i] == files;
      data := Some(table);
      return Loaded(table);
    }

    /** `get`: loads first when nothing is loaded yet. A load that fails
        exits the process, so no answer is given; a successful load always
        leaves a table, so the source's fallback to the default after a load
        is never taken. */
    method Get(key: string, locale: Option<string>, guild: string, default: Node,
               dirExists: bool, files: seq<LocaleFile>, known: set<string>) returns (r: Lookup)
      modifies this
      ensures old(data).Some? ==> data == old(data)
      ensures old(data).None? && dirExists ==> data == Some(LoadedLocales(files, known))
      ensures r.Exits? <==> old(data).None? && !dirExists
      ensures r.Exits? ==> data.None?
      ensures r.Answers? ==> data.Some? && r.answer == LocalizationGet(data.value, key, locale, guild, default)
    {
      if data.None? {
        var outcome := Load(dirExists, files, known);
        if outcome.Exited? {
          return Exits;
        }
      }
      r := Answers(LocalizationGet(data.value, key, locale, guild, default));
    }
  }
}
