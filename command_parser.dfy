// The plugin's command text: the parameter tokenizer, the syntax
// definitions ("/ban <target> [reason]"), parsing a typed command into its
// type, alias and (named) parameters, validating it against its syntax, and
// compiling a command back into text for the server to dispatch.
module CommandParser {
  import opened Common

  // ---------------------------------------------------------------------
  // The parameter tokenizer

  /** The tokenizer's state after some prefix of the input: the finished
      tokens, the token being built, and the quote and escape flags. */
  datatype Tok = Tok(done: seq<string>, cur: string, inQuotes: bool, escaped: bool)

  const Start := Tok([], "", false, false)

  /** One character: an escaped character is literal, a backslash escapes
      the next one, a double quote toggles quoting and is dropped, an
      unquoted space ends a non-empty token, anything else is appended. */
  function Step(t: Tok, c: char): Tok
  {
    if t.escaped then t.(cur := t.cur + [c], escaped := false)
    else if c == '\\' then t.(escaped := true)
    else if c == '"' then t.(inQuotes := !t.inQuotes)
    else if c == ' ' && !t.inQuotes then
      (if |t.cur| > 0 then t.(done := t.done + [t.cur], cur := "") else t)
    else t.(cur := t.cur + [c])
  }

  function Run(t: Tok, s: string): Tok
    decreases |s|
  {
    if s == [] then t else Run(Step(t, s[0]), s[1..])
  }

  /** The tokens once the input is exhausted: the last one is kept if non-empty. */
  function Flush(t: Tok): seq<string>
  {
    if |t.cur| > 0 then t.done + [t.cur] else t.done
  }

  /** `parseParameters`: the tokens of a parameter string. */
  function Tokenize(s: string): (r: seq<string>)
    ensures s == "" ==> r == []
  {
    Flush(Run(Start, s))
  }

  lemma {:induction false} RunAppend(t: Tok, a: string, b: string)
    ensures Run(t, a + b) == Run(Run(t, a), b)
    decreases |a|
  {
    if a != [] {
      assert (a + b)[0] == a[0] && (a + b)[1..] == a[1..] + b;
      RunAppend(Step(t, a[0]), a[1..], b);
    } else {
      assert a + b == b;
    }
  }

  lemma RunOne(t: Tok, c: char)
    ensures Run(t, [c]) == Step(t, c)
  {
    assert [c][1..] == [];
  }

  predicate NoEmpty(ts: seq<string>)
  {
    forall i :: 0 <= i < |ts| ==> ts[i] != ""
  }

  lemma {:induction false} RunKeepsNoEmpty(t: Tok, s: string)
    requires NoEmpty(t.done)
    ensures NoEmpty(Run(t, s).done)
    decreases |s|
  {
    if s != [] {
      RunKeepsNoEmpty(Step(t, s[0]), s[1..]);
    }
  }

  /** The tokenizer never emits an empty token. */
  lemma TokensNonEmpty(s: string)
    ensures NoEmpty(Tokenize(s))
  {
    RunKeepsNoEmpty(Start, s);
  }

  /** `parseParameters` as written: the character loop over a StringBuilder. */
  method ParseParameters(s: string) returns (params: seq<string>)
    ensures params == Tokenize(s)
  {
    if s == "" {
      return [];
    }
    params := [];
    var cur := "";
    var inQuotes := false;
    var escaped := false;
    var i := 0;
    while i < |s|
      invariant 0 <= i <= |s|
      invariant Run(Tok(params, cur, inQuotes, escaped), s[i..]) == Run(Start, s)
    {
      var c := s[i];
      assert s[i..][0] == c && s[i..][1..] == s[i + 1..];
      if escaped {
        cur := cur + [c];
        escaped := false;
      } else if c == '\\' {
        escaped := true;
      } else if c == '"' {
        inQuotes := !inQuotes;
      } else if c == ' ' && !inQuotes {
        if |cur| > 0 {
          params := params + [cur];
          cur := "";
        }
      } else {
        cur := cur + [c];
      }
      i := i + 1;
    }
    if |cur| > 0 {
      params := params + [cur];
    }
  }

  // ---------------------------------------------------------------------
  // Quoting a value for the compiled command

  /** One character as the compiled command writes it: a backslash or a double quote gets a backslash before it. */
  function EscapeChar(c: char): string
  {
    if c == '\\' || c == '"' then ['\\', c] else [c]
  }

  /** Backslash-escapes every backslash and every double quote. */
  function Escape(v: string): (r: string)
    ensures |r| >= |v|
    ensures '\\' !in v && '"' !in v ==> r == v
  {
    if v == [] then [] else EscapeChar(v[0]) + Escape(v[1..])
  }

  /** How `compileCommand` writes one value: a value holding a space or a
      double quote is wrapped in quotes with `"` escaped as `\"`; any other
      value is written as it is, backslashes included. */
  function QuoteAsWritten(v: string): string
  {
    if ' ' in v || '"' in v then "\"" + ReplaceAll(v, "\"", "\\\"") + "\"" else v
  }

  /** The corrected quoting: backslashes are escaped as well, so the
      tokenizer reads every value back unchanged. */
  function Quote(v: string): (r: string)
    ensures |r| >= |v|
  {
    if ' ' in v || '"' in v then "\"" + Escape(v) + "\"" else Escape(v)
  }

  /** Each value preceded by a space, as the compiled command lists them. */
  function Args(vs: seq<string>): string
  {
    if vs == [] then "" else " " + Quote(vs[0]) + Args(vs[1..])
  }

  function ArgsAsWritten(vs: seq<string>): string
  {
    if vs == [] then "" else " " + QuoteAsWritten(vs[0]) + ArgsAsWritten(vs[1..])
  }

  lemma {:induction false} ArgsAppend(a: seq<string>, b: seq<string>)
    ensures Args(a + b) == Args(a) + Args(b)
    decreases |a|
  {
    if a != [] {
      assert (a + b)[0] == a[0] && (a + b)[1..] == a[1..] + b;
      ArgsAppend(a[1..], b);
      assert Args(a + b) == " " + Quote(a[0]) + (Args(a[1..]) + Args(b));
    } else {
      assert a + b == b;
    }
  }

  /** Escaped text is read back literally, outside quotes as long as it has no space. */
  lemma {:induction false} RunEscape(t: Tok, v: string)
    requires !t.escaped && (t.inQuotes || ' ' !in v)
    ensures Run(t, Escape(v)) == t.(cur := t.cur + v)
    decreases |v|
  {
    if v == [] {
      assert t.cur + v == t.cur;
    } else {
      var t1 := t.(cur := t.cur + [v[0]]);
      calc {
        Run(t, Escape(v));
        Run(t, EscapeChar(v[0]) + Escape(v[1..]));
        { RunAppend(t, EscapeChar(v[0]), Escape(v[1..])); }
        Run(Run(t, EscapeChar(v[0])), Escape(v[1..]));
        { RunEscapeChar(t, v[0]); }
        Run(t1, Escape(v[1..]));
        { RunEscape(t1, v[1..]); }
        t1.(cur := t1.cur + v[1..]);
        { assert t1.cur + v[1..] == t.cur + v; }
        t.(cur := t.cur + v);
      }
    }
  }

  /** One escaped character is read back as that character. */
  lemma RunEscapeChar(t: Tok, c: char)
    requires !t.escaped && (t.inQuotes || c != ' ')
    ensures Run(t, EscapeChar(c)) == t.(cur := t.cur + [c])
  {
    if c == '\\' || c == '"' {
      assert EscapeChar(c) == ['\\'] + [c];
      RunAppend(t, ['\\'], [c]);
      RunOne(t, '\\');
      RunOne(t.(escaped := true), c);
    } else {
      RunOne(t, c);
    }
  }

  /** A quoted value is read back as exactly that value. */
  lemma RunQuote(t: Tok, v: string)
    requires !t.escaped && !t.inQuotes
    ensures Run(t, Quote(v)) == t.(cur := t.cur + v)
  {
    if ' ' in v || '"' in v {
      var t1 := t.(inQuotes := true);
      assert Quote(v) == "\"" + (Escape(v) + "\"");
      RunAppend(t, "\"", Escape(v) + "\"");
      RunOne(t, '"');
      RunAppend(t1, Escape(v), "\"");
      RunEscape(t1, v);
      RunOne(t1.(cur := t1.cur + v), '"');
    } else {
      RunEscape(t, v);
    }
  }

  /** After a non-empty token, the listed non-empty values are read back as
      the tokens that follow it. */
  lemma {:induction false} RunArgs(d: seq<string>, c: string, vs: seq<string>)
    requires |c| > 0 && NoEmpty(vs)
    ensures Flush(Run(Tok(d, c, false, false), Args(vs))) == d + [c] + vs
    decreases |vs|
  {
    var t := Tok(d, c, false, false);
    if vs == [] {
      assert Run(t, Args(vs)) == t;
      assert d + [c] + vs == d + [c];
    } else {
      calc {
        Flush(Run(t, Args(vs)));
        { ArgsHead(d, c, vs); }
        Flush(Run(Tok(d + [c], vs[0], false, false), Args(vs[1..])));
        { NoEmptyTail(vs); RunArgs(d + [c], vs[0], vs[1..]); }
        d + [c] + [vs[0]] + vs[1..];
        { ConsTail(d + [c], vs); }
        d + [c] + vs;
      }
    }
  }

  lemma NoEmptyTail(vs: seq<string>)
    requires vs != [] && NoEmpty(vs)
    ensures |vs[0]| > 0 && NoEmpty(vs[1..])
  {
  }

  lemma ConsTail<T>(a: seq<T>, vs: seq<T>)
    requires vs != []
    ensures a + [vs[0]] + vs[1..] == a + vs
  {
    assert [vs[0]] + vs[1..] == vs;
  }

  /** The first listed value: the space ends the current token, and the
      quoted value becomes the next one. */
  lemma ArgsHead(d: seq<string>, c: string, vs: seq<string>)
    requires |c| > 0 && vs != []
    ensures Run(Tok(d, c, false, false), Args(vs)) == Run(Tok(d + [c], vs[0], false, false), Args(vs[1..]))
  {
    var t := Tok(d, c, false, false);
    var t1 := Tok(d + [c], "", false, false);
    calc {
      Run(t, Args(vs));
      { ArgsCons(vs); }
      Run(t, " " + (Quote(vs[0]) + Args(vs[1..])));
      { SpaceThen(t, Quote(vs[0]) + Args(vs[1..])); }
      Run(Step(t, ' '), Quote(vs[0]) + Args(vs[1..]));
      { assert Step(t, ' ') == t1; }
      Run(t1, Quote(vs[0]) + Args(vs[1..]));
      { QuoteThen(t1, vs[0], Args(vs[1..])); }
      Run(t1.(cur := t1.cur + vs[0]), Args(vs[1..]));
      { assert t1.(cur := t1.cur + vs[0]) == Tok(d + [c], vs[0], false, false); }
      Run(Tok(d + [c], vs[0], false, false), Args(vs[1..]));
    }
  }

  lemma ArgsCons(vs: seq<string>)
    requires vs != []
    ensures Args(vs) == " " + (Quote(vs[0]) + Args(vs[1..]))
  {
  }

  lemma SpaceThen(t: Tok, rest: string)
    ensures Run(t, " " + rest) == Run(Step(t, ' '), rest)
  {
    assert (" " + rest)[0] == ' ' && (" " + rest)[1..] == rest;
  }

  /** A quoted value followed by more text: the value joins the current token. */
  lemma QuoteThen(t: Tok, v: string, rest: string)
    requires !t.escaped && !t.inQuotes
    ensures Run(t, Quote(v) + rest) == Run(t.(cur := t.cur + v), rest)
  {
    RunAppend(t, Quote(v), rest);
    RunQuote(t, v);
  }

  /** The round trip of the corrected quoting: tokenizing the compiled
      values gives the values back, whenever none of them is empty (an
      empty value can never come back, as no empty token is emitted). */
  lemma TokenizeArgs(vs: seq<string>)
    requires |vs| > 0 && NoEmpty(vs)
    ensures Tokenize(Args(vs)[1..]) == vs
  {
    var rest := Args(vs[1..]);
    calc {
      Tokenize(Args(vs)[1..]);
      { ArgsCons(vs); assert Args(vs)[1..] == Quote(vs[0]) + rest; }
      Flush(Run(Start, Quote(vs[0]) + rest));
      { QuoteThen(Start, vs[0], rest); assert Start.(cur := Start.cur + vs[0]) == Tok([], vs[0], false, false); }
      Flush(Run(Tok([], vs[0], false, false), rest));
      { NoEmptyTail(vs); RunArgs([], vs[0], vs[1..]); }
      [] + [vs[0]] + vs[1..];
      { ConsTail([], vs); }
      vs;
    }
  }

  lemma {:induction false} ReplaceQuoteIsEscape(v: string)
    requires '\\' !in v
    ensures ReplaceChar(v, '"', "\\\"") == Escape(v)
    decreases |v|
  {
    if v != [] {
      ReplaceQuoteIsEscape(v[1..]);
    }
  }

  /** Without a backslash in the value the written quoting is the corrected one. */
  lemma QuoteAsWrittenAgrees(v: string)
    requires '\\' !in v
    ensures QuoteAsWritten(v) == Quote(v)
  {
    ReplaceCharIsReplaceAll(v, '"', "\\\"");
    ReplaceQuoteIsEscape(v);
  }

  lemma {:induction false} ArgsAsWrittenAgrees(vs: seq<string>)
    requires forall i :: 0 <= i < |vs| ==> '\\' !in vs[i]
    ensures ArgsAsWritten(vs) == Args(vs)
    decreases |vs|
  {
    if vs != [] {
      QuoteAsWrittenAgrees(vs[0]);
      ArgsAsWrittenAgrees(vs[1..]);
    }
  }

  /** As written, a value with a backslash and no space or quote is written
      bare, and the tokenizer then takes the backslash as an escape: the
      value `a\b` comes back as `ab`. */
  lemma BackslashLostAsWritten()
    ensures ArgsAsWritten(["a\\b"]) == " a\\b"
    ensures Tokenize(ArgsAsWritten(["a\\b"])[1..]) == ["ab"]
    ensures Tokenize(Args(["a\\b"])[1..]) == ["a\\b"]
  {
    WrittenBackslash();
    TokenizeArgs(["a\\b"]);
  }

  /** As written, `a\b` goes into the command text unchanged. */
  lemma WrittenBackslash()
    ensures ArgsAsWritten(["a\\b"]) == " a\\b"
    ensures Tokenize(ArgsAsWritten(["a\\b"])[1..]) == ["ab"]
  {
    assert QuoteAsWritten("a\\b") == "a\\b";
    assert ArgsAsWritten(["a\\b"]) == " a\\b";
    assert ArgsAsWritten(["a\\b"])[1..] == "a\\b";
    RunBackslash();
  }

  /** The tokenizer drops the backslash of `a\b` and reads the `b` literally. */
  lemma RunBackslash()
    ensures Run(Start, "a\\b") == Tok([], "ab", false, false)
  {
    var s := "a\\b";
    assert s[1..] == "\\b" && s[1..][1..] == "b" && s[1..][1..][1..] == "";
    calc {
      Run(Start, s);
      Run(Tok([], "a", false, false), "\\b");
      Run(Tok([], "a", false, true), "b");
      Run(Tok([], "ab", false, false), "");
    }
  }

  // ---------------------------------------------------------------------
  // Syntax definitions: "/ban <target> [reason]"

  datatype SyntaxParam = SyntaxParam(name: string, required: bool)

  /** Trailing empty fields removed, as Java's `split` does. */
  function DropTrailingEmpty(parts: seq<string>): (r: seq<string>)
    ensures |r| <= |parts| && r == parts[..|r|]
    ensures |r| > 0 ==> r[|r| - 1] != ""
    ensures forall i :: |r| <= i < |parts| ==> parts[i] == ""
  {
    if parts == [] then []
    else if parts[|parts| - 1] == "" then DropTrailingEmpty(parts[..|parts| - 1])
    else parts
  }

  /** Java `s.split(" ")`: the fields between single spaces, trailing empty
      fields dropped; an empty string is its own single field. */
  function SplitSpaces(s: string): (r: seq<string>)
    ensures forall i :: 0 <= i < |r| ==> ' ' !in r[i]
  {
    if s == "" then [""] else DropTrailingEmpty(Split(s, ' '))
  }

  /** One syntax word: `<x>` is a required x, `[x]` an optional x, and any
      other word is not a parameter. */
  function Classify(part: string): (r: Option<SyntaxParam>)
    ensures r.Some? <==> (StartsWith(part, "<") && EndsWith(part, ">")) || (StartsWith(part, "[") && EndsWith(part, "]"))
    ensures r.Some? ==> (r.value.required <==> StartsWith(part, "<") && EndsWith(part, ">"))
    ensures r.Some? ==> |part| >= 2 && part == [part[0]] + r.value.name + [part[|part| - 1]]
  {
    assert StartsWith(part, "<") <==> |part| >= 1 && part[0] == '<';
    assert StartsWith(part, "[") <==> |part| >= 1 && part[0] == '[';
    assert EndsWith(part, ">") <==> |part| >= 1 && part[|part| - 1] == '>';
    assert EndsWith(part, "]") <==> |part| >= 1 && part[|part| - 1] == ']';
    if |part| >= 2 && part[0] == '<' && part[|part| - 1] == '>' then Some(SyntaxParam(part[1..|part| - 1], true))
    else if |part| >= 2 && part[0] == '[' && part[|part| - 1] == ']' then Some(SyntaxParam(part[1..|part| - 1], false))
    else None
  }

  /** The parameters named by the words, in order. */
  function ParamsOf(parts: seq<string>): (r: seq<SyntaxParam>)
    ensures |r| <= |parts|
  {
    if parts == [] then []
    else
      var c := Classify(parts[|parts| - 1]);
      ParamsOf(parts[..|parts| - 1]) + (if c.Some? then [c.value] else [])
  }

  /** `parseSyntax`: the first word is the command itself and is skipped.
      None stands for the exception thrown when the syntax is made of spaces
      only and `split` returns no field at all. */
  function ParseSyntax(syntax: string): Option<seq<SyntaxParam>>
  {
    var parts := SplitSpaces(syntax);
    if parts == [] then None else Some(ParamsOf(parts[1..]))
  }

  /** `parseSyntax` as written: a loop over the split words. */
  method ParseSyntaxWords(syntax: string) returns (r: Option<seq<SyntaxParam>>)
    ensures r == ParseSyntax(syntax)
  {
    var parts := SplitSpaces(syntax);
    if |parts| == 0 {
      return None;
    }
    var params := ClassifyAll(parts[1..]);
    return Some(params);
  }

  /** The loop of `parseSyntax`: classify each word, keeping the parameters. */
  method ClassifyAll(words: seq<string>) returns (params: seq<SyntaxParam>)
    ensures params == ParamsOf(words)
  {
    params := [];
    var i := 0;
    assert words[..0] == [];
    while i < |words|
      invariant 0 <= i <= |words|
      invariant params == ParamsOf(words[..i])
    {
      var c := Classify(words[i]);
      ghost var done := words[..i + 1];
      TakeSnoc(words, i);
      ParamsOfSnoc(words[..i], words[i]);
      if c.Some? {
        params := params + [c.value];
      }
      assert params == ParamsOf(done);
      i := i + 1;
      assert params == ParamsOf(words[..i]);
    }
    assert words[..i] == words;
  }

  lemma ParamsOfSnoc(words: seq<string>, w: string)
    ensures ParamsOf(words + [w]) == ParamsOf(words) + (if Classify(w).Some? then [Classify(w).value] else [])
  {
    assert (words + [w])[..|words|] == words;
  }

  function Bracket(p: SyntaxParam): string
  {
    if p.required then "<" + p.name + ">" else "[" + p.name + "]"
  }

  function Brackets(ps: seq<SyntaxParam>): (r: seq<string>)
    ensures |r| == |ps| && forall i :: 0 <= i < |ps| ==> r[i] == Bracket(ps[i])
  {
    if ps == [] then [] else Brackets(ps[..|ps| - 1]) + [Bracket(ps[|ps| - 1])]
  }

  /** The syntax string a list of parameters is written as. */
  function RenderSyntax(command: string, ps: seq<SyntaxParam>): string
  {
    Join([command] + Brackets(ps), " ")
  }

  lemma ClassifyBracket(p: SyntaxParam)
    ensures Classify(Bracket(p)) == Some(p)
  {
    var b := Bracket(p);
    assert b[1..|b| - 1] == p.name;
  }

  lemma {:induction false} ParamsOfBrackets(ps: seq<SyntaxParam>)
    ensures ParamsOf(Brackets(ps)) == ps
    decreases |ps|
  {
    if ps != [] {
      var init, last := ps[..|ps| - 1], ps[|ps| - 1];
      var bs := Brackets(ps);
      assert bs == Brackets(init) + [Bracket(last)];
      assert bs[..|bs| - 1] == Brackets(init);
      ClassifyBracket(last);
      calc {
        ParamsOf(bs);
        ParamsOf(Brackets(init)) + [last];
        { ParamsOfBrackets(init); }
        init + [last];
        { assert ps == init + [last]; }
        ps;
      }
    }
  }

  /** Parsing a written syntax gives its parameters back, as long as
      neither the command word nor any parameter name holds a space. */
  lemma SyntaxRoundTrip(command: string, ps: seq<SyntaxParam>)
    requires ' ' !in command
    requires forall i :: 0 <= i < |ps| ==> ' ' !in ps[i].name
    ensures ParseSyntax(RenderSyntax(command, ps)) == Some(ps)
  {
    var parts := [command] + Brackets(ps);
    forall i | 0 <= i < |parts| ensures ' ' !in parts[i] {
      if i > 0 {
        assert parts[i] == Bracket(ps[i - 1]);
      }
    }
    if |parts| >= 2 {
      assert parts[|parts| - 1] == Bracket(ps[|ps| - 1]);
    }
    SplitSpacesJoin(parts);
    assert parts[1..] == Brackets(ps);
    ParamsOfBrackets(ps);
  }

  /** Splitting space-free words joined by spaces gives them back, as far
      as the parameters after the first word are concerned. */
  lemma SplitSpacesJoin(parts: seq<string>)
    requires |parts| >= 1 && forall i :: 0 <= i < |parts| ==> ' ' !in parts[i]
    requires |parts| >= 2 ==> parts[|parts| - 1] != ""
    ensures var r := SplitSpaces(Join(parts, " ")); |r| >= 1 && r[1..] == parts[1..]
  {
    SplitJoin(parts, ' ');
    var s := Join(parts, " ");
    if s == "" {
      if |parts| >= 2 {
        JoinLength(parts);
        assert false;
      }
    } else if |parts| == 1 {
      assert s == parts[0];
    }
  }

  lemma {:induction false} JoinLength(parts: seq<string>)
    requires |parts| >= 2
    ensures |Join(parts, " ")| >= 1
    decreases |parts|
  {
  }

  // ---------------------------------------------------------------------
  // The parser's tables

  /** The configured commands: each type's aliases in the order its set
      yields them, the types in the order the alias map yields them, and
      each type's syntax string. */
  datatype Config = Config(aliases: map<string, seq<string>>, order: seq<string>, syntax: map<string, string>)

  /** The tables the parser builds once: lowercased alias to type, and each
      type's parsed syntax. */
  datatype Parser = Parser(config: Config, lowerAlias: map<string, string>, cache: map<string, seq<SyntaxParam>>)

  function LowerSet(als: seq<string>): set<string>
  {
    set a | a in als :: Lower(a)
  }

  /** Every alias of `t`, lowercased, now maps to `t`; the rest is kept. */
  function AddAliases(m: map<string, string>, t: string, als: seq<string>): (r: map<string, string>)
    ensures r.Keys == m.Keys + LowerSet(als)
    ensures forall k :: k in r ==> r[k] == (if k in LowerSet(als) then t else m[k])
  {
    if als == [] then m
    else
      var init := als[..|als| - 1];
      assert als == init + [als[|als| - 1]];
      assert LowerSet(als) == LowerSet(init) + {Lower(als[|als| - 1])};
      AddAliases(m, t, init)[Lower(als[|als| - 1]) := t]
  }

  /** The static table: the aliases of each type in turn; a later type wins
      a shared lowercase alias. */
  function AliasTable(aliases: map<string, seq<string>>, order: seq<string>): (r: map<string, string>)
    ensures forall k :: k in r ==> r[k] in aliases && r[k] in order && k in LowerSet(aliases[r[k]])
  {
    if order == [] then map[]
    else
      var t := order[|order| - 1];
      var m := AliasTable(aliases, order[..|order| - 1]);
      if t in aliases then AddAliases(m, t, aliases[t]) else m
  }

  /** No two types share an alias, ignoring case. */
  predicate UniqueAliases(aliases: map<string, seq<string>>)
  {
    forall t1, t2 :: t1 in aliases && t2 in aliases && t1 != t2 ==> LowerSet(aliases[t1]) !! LowerSet(aliases[t2])
  }

  /** With unique aliases, every alias of every listed type leads back to
      that type, whatever its case. */
  lemma {:induction false} AliasTableComplete(aliases: map<string, seq<string>>, order: seq<string>, t: string, a: string)
    requires UniqueAliases(aliases) && t in order && t in aliases && a in aliases[t]
    ensures Lower(a) in AliasTable(aliases, order) && AliasTable(aliases, order)[Lower(a)] == t
    decreases |order|
  {
    var last := order[|order| - 1];
    assert Lower(a) in LowerSet(aliases[t]);
    if last == t {
    } else {
      assert t in order[..|order| - 1] by {
        var i :| 0 <= i < |order| && order[i] == t;
        assert i != |order| - 1;
        assert order[..|order| - 1][i] == t;
      }
      AliasTableComplete(aliases, order[..|order| - 1], t, a);
      if last in aliases {
        assert Lower(a) !in LowerSet(aliases[last]);
      }
    }
  }

  /** The static initializer: the alias table and the syntax cache. None
      when some syntax cannot be parsed, which aborts the initializer. */
  function Build(cfg: Config): (r: Option<Parser>)
    ensures r.Some? <==> forall k :: k in cfg.syntax ==> ParseSyntax(cfg.syntax[k]).Some?
    ensures r.Some? ==> r.value.config == cfg && r.value.cache.Keys == cfg.syntax.Keys
  {
    if forall k :: k in cfg.syntax ==> ParseSyntax(cfg.syntax[k]).Some? then
      Some(Parser(cfg, AliasTable(cfg.aliases, cfg.order),
                  map k | k in cfg.syntax :: ParseSyntax(cfg.syntax[k]).value))
    else None
  }

  predicate Built(p: Parser)
  {
    Build(p.config) == Some(p)
  }

  /** The alias loop of the initializer. */
  method BuildAliasTable(aliases: map<string, seq<string>>, order: seq<string>) returns (table: map<string, string>)
    ensures table == AliasTable(aliases, order)
  {
    table := map[];
    var i := 0;
    while i < |order|
      invariant 0 <= i <= |order|
      invariant table == AliasTable(aliases, order[..i])
    {
      var t := order[i];
      assert order[..i + 1][..i] == order[..i];
      if t in aliases {
        var als := aliases[t];
        var j := 0;
        ghost var base := table;
        while j < |als|
          invariant 0 <= j <= |als|
          invariant table == AddAliases(base, t, als[..j])
        {
          assert als[..j + 1][..j] == als[..j];
          table := table[Lower(als[j]) := t];
          j := j + 1;
        }
        assert als[..j] == als;
      }
      i := i + 1;
    }
    assert order[..i] == order;
  }

  // ---------------------------------------------------------------------
  // Parsed commands

  datatype ParsedCommand = ParsedCommand(commandType: string, usedAlias: string, parameters: seq<string>,
                                         named: map<string, string>)

  /** The named parameters after the first `n` pairs of syntax name and
      parameter; a later name overrides an earlier one with the same
      lowercase form. */
  function Named(syntax: seq<SyntaxParam>, params: seq<string>, n: nat): (r: map<string, string>)
    requires n <= |syntax| && n <= |params|
    ensures forall i :: 0 <= i < n ==> Lower(syntax[i].name) in r
    ensures forall k :: k in r ==> r[k] in params[..n]
  {
    if n == 0 then map[]
    else Named(syntax, params, n - 1)[Lower(syntax[n - 1].name) := params[n - 1]]
  }

  function Min(a: nat, b: nat): nat { if a <= b then a else b }

  /** The names map `mapNamedParameters` leaves behind. */
  function NamedFor(p: Parser, ty: string, params: seq<string>): map<string, string>
  {
    if ty in p.cache then Named(p.cache[ty], params, Min(|p.cache[ty]|, |params|)) else map[]
  }

  /** Syntax names that differ even ignoring case. */
  predicate DistinctNames(syntax: seq<SyntaxParam>)
  {
    forall i, j :: 0 <= i < j < |syntax| ==> Lower(syntax[i].name) != Lower(syntax[j].name)
  }

  /** With distinct names, the i-th name holds the i-th parameter. */
  lemma {:induction false} NamedLookup(syntax: seq<SyntaxParam>, params: seq<string>, n: nat, i: nat)
    requires n <= |syntax| && n <= |params| && i < n && DistinctNames(syntax)
    ensures Named(syntax, params, n)[Lower(syntax[i].name)] == params[i]
    decreases n
  {
    if i < n - 1 {
      NamedLookup(syntax, params, n - 1, i);
    }
  }

  /** `mapNamedParameters` as written: the loop that fills the map. */
  method MapNamedParameters(syntax: seq<SyntaxParam>, params: seq<string>) returns (named: map<string, string>)
    ensures named == Named(syntax, params, Min(|syntax|, |params|))
  {
    named := map[];
    var i := 0;
    while i < |syntax| && i < |params|
      invariant 0 <= i <= Min(|syntax|, |params|)
      invariant named == Named(syntax, params, i)
    {
      NamedStep(syntax, params, i);
      named := named[Lower(syntax[i].name) := params[i]];
      i := i + 1;
    }
  }

  lemma NamedStep(syntax: seq<SyntaxParam>, params: seq<string>, i: nat)
    requires i < |syntax| && i < |params|
    ensures Named(syntax, params, i + 1) == Named(syntax, params, i)[Lower(syntax[i].name) := params[i]]
  {
  }

  function IndexOfSpace(s: string): (r: int)
    ensures -1 <= r < |s|
    ensures r == -1 <==> ' ' !in s
    ensures r >= 0 ==> s[r] == ' ' && ' ' !in s[..r]
  {
    if s == [] then -1
    else if s[0] == ' ' then 0
    else
      var k := IndexOfSpace(s[1..]);
      assert k >= 0 ==> s[..k + 1] == [s[0]] + s[1..][..k];
      if k == -1 then -1 else k + 1
  }

  /** The command text after one optional leading slash. */
  function Unslashed(message: string): string
  {
    if StartsWith(message, "/") then message[1..] else message
  }

  /** The command word: the text up to the first space. */
  function CommandWord(text: string): (r: string)
    ensures ' ' !in r
  {
    var sp := IndexOfSpace(text);
    if sp == -1 then text else text[..sp]
  }

  /** The parameter text: what follows the first space, if there is one. */
  function ParamText(text: string): Option<string>
  {
    var sp := IndexOfSpace(text);
    if sp == -1 then None else Some(text[sp + 1..])
  }

  /** `parseCommand`: None for a missing or empty message or an unknown
      command word, compared ignoring case. */
  function ParseCommand(p: Parser, message: Option<string>): (r: Option<ParsedCommand>)
    ensures message.None? || message.value == "" ==> r.None?
    ensures r.Some? ==> Lower(r.value.usedAlias) in p.lowerAlias
                        && r.value.commandType == p.lowerAlias[Lower(r.value.usedAlias)]
                        && ' ' !in r.value.usedAlias && NoEmpty(r.value.parameters)
  {
    if message.None? || message.value == "" then None
    else
      var text := Unslashed(message.value);
      var word := CommandWord(text);
      if Lower(word) !in p.lowerAlias then None
      else
        var ty := p.lowerAlias[Lower(word)];
        var params := if ParamText(text).None? then [] else Tokenize(ParamText(text).value);
        TokensNonEmpty(if ParamText(text).None? then "" else ParamText(text).value);
        Some(ParsedCommand(ty, word, params, NamedFor(p, ty, params)))
  }

  /** `getParameter(name)`: named lookups ignore case. */
  function GetParameter(c: ParsedCommand, name: string): Option<string>
  {
    if Lower(name) in c.named then Some(c.named[Lower(name)]) else None
  }

  function HasParameter(c: ParsedCommand, name: string): bool
  {
    Lower(name) in c.named
  }

  /** Looking a name up in another case finds the same parameter. */
  lemma GetParameterIgnoresCase(c: ParsedCommand, name: string, other: string)
    requires Lower(name) == Lower(other)
    ensures GetParameter(c, name) == GetParameter(c, other)
    ensures HasParameter(c, name) <==> GetParameter(c, name).Some?
  {
  }

  /** A word without spaces followed by nothing or by a space and the
      parameter text splits back into the two. */
  lemma SplitAtWord(word: string, rest: string)
    requires ' ' !in word && (rest == "" || rest[0] == ' ')
    ensures CommandWord(word + rest) == word
    ensures ParamText(word + rest) == if rest == "" then None else Some(rest[1..])
  {
    var text := word + rest;
    if rest == "" {
      assert text == word;
    } else {
      var r := IndexOfSpace(text);
      assert text[|word|] == ' ';
      assert forall x :: 0 <= x < |word| ==> text[x] == word[x];
      assert forall x :: 0 <= x < r ==> text[..r][x] == text[x];
      assert r == |word|;
      assert text[..r] == word && text[r + 1..] == rest[1..];
    }
  }

  /** The parameters read from what follows the command word. */
  function ParamsAfter(rest: string): seq<string>
  {
    if rest == "" then [] else Tokenize(rest[1..])
  }

  /** A slashed command word followed by its parameter text parses into the
      word's type, the word itself and the tokens of the text. */
  lemma ParseSlashed(p: Parser, word: string, rest: string)
    requires ' ' !in word && (rest == "" || rest[0] == ' ')
    ensures ParseCommand(p, Some("/" + word + rest)) ==
              if Lower(word) !in p.lowerAlias then None
              else Some(ParsedCommand(p.lowerAlias[Lower(word)], word, ParamsAfter(rest),
                                      NamedFor(p, p.lowerAlias[Lower(word)], ParamsAfter(rest))))
  {
    assert ("/" + word + rest)[1..] == word + rest;
    assert Unslashed("/" + word + rest) == word + rest;
    SplitAtWord(word, rest);
  }

  /** The command word's case changes neither the type nor the parameters. */
  lemma CommandWordIgnoresCase(p: Parser, word: string, other: string, rest: string)
    requires Lower(word) == Lower(other) && ' ' !in word && ' ' !in other
    requires rest == "" || rest[0] == ' '
    ensures ParseCommand(p, Some("/" + word + rest)).Some? <==> ParseCommand(p, Some("/" + other + rest)).Some?
    ensures ParseCommand(p, Some("/" + word + rest)).Some? ==>
              ParseCommand(p, Some("/" + word + rest)).value.commandType == ParseCommand(p, Some("/" + other + rest)).value.commandType
              && ParseCommand(p, Some("/" + word + rest)).value.parameters == ParseCommand(p, Some("/" + other + rest)).value.parameters
  {
    ParseSlashed(p, word, rest);
    ParseSlashed(p, other, rest);
  }

  // ---------------------------------------------------------------------
  // Combined parameters

  /** `getCombinedParameter(start)`: the parameters from `start` on, joined
      by single spaces; None past the end. */
  method GetCombinedParameter(params: seq<string>, start: nat) returns (r: Option<string>)
    ensures start >= |params| ==> r.None?
    ensures start < |params| ==> r == Some(Join(params[start..], " "))
  {
    if start >= |params| {
      return None;
    }
    if start == |params| - 1 {
      assert params[start..] == [params[start]];
      return Some(params[start]);
    }
    var combined := params[start];
    var i := start + 1;
    assert params[start..start + 1] == [params[start]];
    while i < |params|
      invariant start < i <= |params|
      invariant combined == Join(params[start..i], " ")
    {
      JoinSnoc(params[start..i], params[i], " ");
      assert params[start..i + 1] == params[start..i] + [params[i]];
      combined := combined + " " + params[i];
      i := i + 1;
    }
    assert params[start..i] == params[start..];
    return Some(combined);
  }

  lemma {:induction false} JoinSnoc(parts: seq<string>, x: string, sep: string)
    requires |parts| > 0
    ensures Join(parts + [x], sep) == Join(parts, sep) + sep + x
    decreases |parts|
  {
    if |parts| == 1 {
      assert (parts + [x])[1..] == [x];
    } else {
      assert (parts + [x])[1..] == parts[1..] + [x];
      JoinSnoc(parts[1..], x, sep);
    }
  }

  /** Split again on spaces, the combined text gives the parameters back
      when none of them holds a space. */
  lemma CombinedSplits(params: seq<string>, start: nat)
    requires start < |params| && forall i :: 0 <= i < |params| ==> ' ' !in params[i]
    ensures Split(Join(params[start..], " "), ' ') == params[start..]
  {
    SplitJoin(params[start..], ' ');
  }

  lemma JoinStartsWith(parts: seq<string>, sep: string)
    requires |parts| > 0
    ensures StartsWith(Join(parts, sep), parts[0])
  {
    if |parts| > 1 {
      assert Join(parts, sep) == parts[0] + (sep + Join(parts[1..], sep));
    }
  }

  /** The first of the first `n` syntax names equal to `lname`, ignoring
      case; -1 when there is none. */
  function FirstNamed(syntax: seq<SyntaxParam>, n: nat, lname: string): (r: int)
    requires n <= |syntax|
    ensures -1 <= r < n
    ensures r >= 0 ==> Lower(syntax[r].name) == lname && forall j :: 0 <= j < r ==> Lower(syntax[j].name) != lname
    ensures r == -1 ==> forall j :: 0 <= j < n ==> Lower(syntax[j].name) != lname
  {
    if n == 0 then -1
    else
      var f := FirstNamed(syntax, n - 1, lname);
      if f >= 0 then f else if Lower(syntax[n - 1].name) == lname then n - 1 else -1
  }

  /** `getCombinedNamedParameter`: the parameters from the named one's
      syntax position on, joined by spaces; the plain named value when the
      name has no position among the given parameters. */
  function CombinedNamed(p: Parser, c: ParsedCommand, name: string): (r: Option<string>)
    ensures r.None? <==> !HasParameter(c, name)
  {
    if !HasParameter(c, name) then None
    else if c.commandType !in p.cache then GetParameter(c, name)
    else
      var syntax := p.cache[c.commandType];
      var i := FirstNamed(syntax, Min(|syntax|, |c.parameters|), Lower(name));
      if i == -1 then GetParameter(c, name) else Some(Join(c.parameters[i..], " "))
  }

  /** For a parsed command whose syntax names are distinct, the combined
      value begins with the named parameter itself. */
  lemma CombinedStartsWithNamed(p: Parser, c: ParsedCommand, name: string)
    requires c.commandType in p.cache && DistinctNames(p.cache[c.commandType])
    requires c.named == NamedFor(p, c.commandType, c.parameters)
    requires HasParameter(c, name)
    ensures StartsWith(CombinedNamed(p, c, name).value, GetParameter(c, name).value)
  {
    var syntax := p.cache[c.commandType];
    var n := Min(|syntax|, |c.parameters|);
    var i := FirstNamed(syntax, n, Lower(name));
    if i >= 0 {
      NamedLookup(syntax, c.parameters, n, i);
      assert c.parameters[i..][0] == c.parameters[i];
      JoinStartsWith(c.parameters[i..], " ");
    } else {
      var v := GetParameter(c, name).value;
      assert v[..|v|] == v;
    }
  }

  /** `getCombinedNamedParameter` as written: the search loop, then the join. */
  method GetCombinedNamedParameter(p: Parser, c: ParsedCommand, name: string) returns (r: Option<string>)
    ensures r == CombinedNamed(p, c, name)
  {
    if Lower(name) !in c.named {
      return None;
    }
    var lname := Lower(name);
    if c.commandType !in p.cache {
      return GetParameter(c, name);
    }
    var syntax := p.cache[c.commandType];
    var index := -1;
    var i := 0;
    while i < |syntax| && i < |c.parameters|
      invariant 0 <= i <= Min(|syntax|, |c.parameters|)
      invariant forall j :: 0 <= j < i ==> Lower(syntax[j].name) != lname
      invariant index == -1
    {
      if Lower(syntax[i].name) == lname {
        index := i;
        break;
      }
      i := i + 1;
    }
    ghost var n := Min(|syntax|, |c.parameters|);
    assert index == -1 ==> FirstNamed(syntax, n, lname) == -1;
    assert index >= 0 ==> FirstNamed(syntax, n, lname) == index;
    if index == -1 {
      return GetParameter(c, name);
    }
    r := GetCombinedParameter(c.parameters, index);
  }

  // ---------------------------------------------------------------------
  // Validation against the syntax

  function RequiredCount(ps: seq<SyntaxParam>): (n: nat)
    ensures n <= |ps|
  {
    if ps == [] then 0 else RequiredCount(ps[..|ps| - 1]) + (if ps[|ps| - 1].required then 1 else 0)
  }

  lemma RequiredCountStep(ps: seq<SyntaxParam>, i: nat)
    requires i < |ps|
    ensures RequiredCount(ps[..i + 1]) == RequiredCount(ps[..i]) + (if ps[i].required then 1 else 0)
  {
    assert ps[..i + 1][..i] == ps[..i];
  }

  lemma {:induction false} RequiredCountMono(ps: seq<SyntaxParam>, a: nat, b: nat)
    requires a <= b <= |ps|
    ensures RequiredCount(ps[..a]) <= RequiredCount(ps[..b])
    decreases b - a
  {
    if a < b {
      RequiredCountMono(ps, a, b - 1);
      RequiredCountStep(ps, b - 1);
    }
  }

  /** The position of the required parameter that has exactly `k` required
      parameters before it. */
  function NthRequired(ps: seq<SyntaxParam>, k: nat): (i: nat)
    requires k < RequiredCount(ps)
    ensures i < |ps| && ps[i].required && RequiredCount(ps[..i]) == k
  {
    var init := ps[..|ps| - 1];
    if RequiredCount(init) > k then
      var j := NthRequired(init, k);
      assert init[..j] == ps[..j];
      j
    else |ps| - 1
  }

  /** Only one position has that property. */
  lemma NthRequiredUnique(ps: seq<SyntaxParam>, k: nat, i: nat)
    requires k < RequiredCount(ps) && i < |ps| && ps[i].required && RequiredCount(ps[..i]) == k
    ensures NthRequired(ps, k) == i
  {
    var j := NthRequired(ps, k);
    forall a: nat, b: nat | a <= b <= |ps|
      ensures RequiredCount(ps[..a]) <= RequiredCount(ps[..b])
    {
      RequiredCountMono(ps, a, b);
    }
    RequiredCountStep(ps, i);
    RequiredCountStep(ps, j);
  }

  datatype Validation = Success | Failure(message: string)

  /** `validateCommandSyntax`: fails for no command, an unknown type, or
      fewer parameters than required ones, naming the first required
      parameter that was not supplied. */
  function Validate(p: Parser, cmd: Option<ParsedCommand>): (r: Validation)
    ensures r.Success? <==> cmd.Some? && cmd.value.commandType in p.config.syntax && cmd.value.commandType in p.cache
                            && |cmd.value.parameters| >= RequiredCount(p.cache[cmd.value.commandType])
  {
    if cmd.None? then Failure("Command is null")
    else
      var ty := cmd.value.commandType;
      if ty !in p.config.syntax then Failure("Unknown command type: " + ty)
      else if ty !in p.cache then Failure("Syntax not parsed for command type: " + ty)
      else
        var ps := p.cache[ty];
        var given := |cmd.value.parameters|;
        if given < RequiredCount(ps) then
          Failure("Missing required parameter: " + ps[NthRequired(ps, given)].name + ". Usage: " + p.config.syntax[ty])
        else Success
  }

  /** The counting loop shared by validation and `compileCommand(List)`. */
  method CountRequired(ps: seq<SyntaxParam>) returns (n: nat)
    ensures n == RequiredCount(ps)
  {
    n := 0;
    var i := 0;
    while i < |ps|
      invariant 0 <= i <= |ps|
      invariant n == RequiredCount(ps[..i])
    {
      RequiredCountStep(ps, i);
      if ps[i].required {
        n := n + 1;
      }
      i := i + 1;
    }
    assert ps[..i] == ps;
  }

  /** `validateCommandSyntax` as written: count, then search for the first
      required parameter past the supplied ones. */
  method ValidateCommandSyntax(p: Parser, cmd: Option<ParsedCommand>) returns (r: Validation)
    ensures r == Validate(p, cmd)
  {
    if cmd.None? {
      return Failure("Command is null");
    }
    var ty := cmd.value.commandType;
    if ty !in p.config.syntax {
      return Failure("Unknown command type: " + ty);
    }
    if ty !in p.cache {
      return Failure("Syntax not parsed for command type: " + ty);
    }
    var ps := p.cache[ty];
    var required := CountRequired(ps);
    var given := |cmd.value.parameters|;
    if given < required {
      ghost var target := NthRequired(ps, given);
      var provided := 0;
      var i := 0;
      while i < |ps|
        invariant 0 <= i <= target
        invariant provided == RequiredCount(ps[..i]) && provided <= given
      {
        RequiredCountStep(ps, i);
        if ps[i].required {
          provided := provided + 1;
          if provided > given {
            NthRequiredUnique(ps, given, i);
            return Failure("Missing required parameter: " + ps[i].name + ". Usage: " + p.config.syntax[ty]);
          }
        }
        i := i + 1;
      }
      assert false;
    }
    return Success;
  }

  // ---------------------------------------------------------------------
  // Compiling a command back into text

  /** The type's first alias in its set's order. */
  function PrimaryAlias(cfg: Config, ty: string): (r: Option<string>)
    ensures r.Some? ==> ty in cfg.aliases && r.value in cfg.aliases[ty]
  {
    if ty in cfg.aliases && |cfg.aliases[ty]| > 0 then Some(cfg.aliases[ty][0]) else None
  }

  predicate Aligned(p: Parser)
  {
    p.cache.Keys == p.config.syntax.Keys
  }

  /** `compileCommand(List)`: the slash, the primary alias and every value;
      None for an unknown type, a type without aliases, or fewer values than
      required parameters. */
  function CompileList(p: Parser, ty: string, vs: seq<string>): (r: Option<string>)
    requires Aligned(p)
    ensures r.Some? <==> ty in p.config.syntax && PrimaryAlias(p.config, ty).Some? && |vs| >= RequiredCount(p.cache[ty])
  {
    if ty !in p.config.syntax then None
    else if PrimaryAlias(p.config, ty).None? then None
    else if |vs| < RequiredCount(p.cache[ty]) then None
    else Some("/" + PrimaryAlias(p.config, ty).value + Args(vs))
  }

  /** The values the map gives for the syntax's parameters, in syntax order,
      absent ones skipped. */
  function Present(ps: seq<SyntaxParam>, values: map<string, string>): (r: seq<string>)
    ensures |r| <= |ps|
  {
    if ps == [] then []
    else
      var key := Lower(ps[|ps| - 1].name);
      Present(ps[..|ps| - 1], values) + (if key in values then [values[key]] else [])
  }

  predicate RequiredGiven(ps: seq<SyntaxParam>, values: map<string, string>, n: nat)
    requires n <= |ps|
  {
    forall j :: 0 <= j < n && ps[j].required ==> Lower(ps[j].name) in values
  }

  /** `compileCommand(Map)`: the values looked up by lowercase syntax name,
      in syntax order; None for an unknown type, a type without aliases, or
      a required parameter without a value. */
  function CompileMap(p: Parser, ty: string, values: map<string, string>): (r: Option<string>)
    requires Aligned(p)
    ensures r.Some? <==> ty in p.config.syntax && PrimaryAlias(p.config, ty).Some? && RequiredGiven(p.cache[ty], values, |p.cache[ty]|)
  {
    if ty !in p.config.syntax then None
    else if PrimaryAlias(p.config, ty).None? then None
    else if !RequiredGiven(p.cache[ty], values, |p.cache[ty]|) then None
    else Some("/" + PrimaryAlias(p.config, ty).value + Args(Present(p.cache[ty], values)))
  }

  lemma ArgsOne(v: string)
    ensures Args([v]) == " " + Quote(v)
  {
    assert [v][1..] == [];
  }

  /** `compileCommand(List)`: count, then append value by value, with the
      corrected quoting (`Quote`, which also escapes backslashes). */
  method CompileCommandList(p: Parser, ty: string, vs: seq<string>) returns (r: Option<string>)
    requires Aligned(p)
    ensures r == CompileList(p, ty, vs)
  {
    if ty !in p.config.syntax {
      return None;
    }
    var alias := PrimaryAlias(p.config, ty);
    if alias.None? {
      return None;
    }
    var required := CountRequired(p.cache[ty]);
    if |vs| < required {
      return None;
    }
    var text := AppendAll(vs, "/" + alias.value);
    return Some(text);
  }

  /** The loop of `compileCommand(List)`: each value quoted after a space. */
  method AppendAll(vs: seq<string>, prefix: string) returns (text: string)
    ensures text == prefix + Args(vs)
  {
    text := prefix;
    var i := 0;
    ghost var done: seq<string> := [];
    assert prefix + Args(done) == prefix;
    while i < |vs|
      invariant 0 <= i <= |vs|
      invariant done == vs[..i]
      invariant text == prefix + Args(done)
    {
      var v := vs[i];
      ArgsSnoc(prefix, done, v);
      text := text + " " + Quote(v);
      TakeSnoc(vs, i);
      done := done + [v];
      i := i + 1;
    }
    assert done == vs;
  }

  /** `compileCommand(Map)`: one pass over the syntax, with the corrected
      quoting (`Quote`, which also escapes backslashes). */
  method CompileCommandMap(p: Parser, ty: string, values: map<string, string>) returns (r: Option<string>)
    requires Aligned(p)
    ensures r == CompileMap(p, ty, values)
  {
    if ty !in p.config.syntax {
      return None;
    }
    var alias := PrimaryAlias(p.config, ty);
    if alias.None? {
      return None;
    }
    r := AppendPresent(p.cache[ty], values, "/" + alias.value);
  }

  /** The loop of `compileCommand(Map)`: append each syntax parameter's
      value in order, and give up at a required one without a value. */
  method AppendPresent(ps: seq<SyntaxParam>, values: map<string, string>, prefix: string) returns (r: Option<string>)
    ensures r == if RequiredGiven(ps, values, |ps|) then Some(prefix + Args(Present(ps, values))) else None
  {
    var text := prefix;
    var i := 0;
    ghost var shown: seq<string> := [];
    assert ps[..0] == [] && prefix + Args([]) == prefix;
    while i < |ps|
      invariant 0 <= i <= |ps|
      invariant shown == Present(ps[..i], values)
      invariant text == prefix + Args(shown)
      invariant RequiredGiven(ps, values, i)
    {
      var key := Lower(ps[i].name);
      if key !in values && ps[i].required {
        RequiredMissing(ps, values, i);
        return None;
      }
      RequiredStep(ps, values, i);
      if key in values {
        var v := values[key];
        PresentWith(ps, values, i, shown);
        ArgsSnoc(prefix, shown, v);
        text := text + " " + Quote(v);
        shown := shown + [v];
        assert shown == Present(ps[..i + 1], values);
      } else {
        PresentWithout(ps, values, i, shown);
        assert shown == Present(ps[..i + 1], values);
      }
      i := i + 1;
      assert shown == Present(ps[..i], values);
    }
    assert ps[..i] == ps;
    return Some(text);
  }

  lemma RequiredMissing(ps: seq<SyntaxParam>, values: map<string, string>, i: nat)
    requires i < |ps| && ps[i].required && Lower(ps[i].name) !in values
    ensures !RequiredGiven(ps, values, |ps|)
  {
  }

  lemma RequiredStep(ps: seq<SyntaxParam>, values: map<string, string>, i: nat)
    requires i < |ps| && RequiredGiven(ps, values, i)
    requires ps[i].required ==> Lower(ps[i].name) in values
    ensures RequiredGiven(ps, values, i + 1)
  {
  }

  /** One more syntax parameter with a value adds that value. */
  lemma PresentWith(ps: seq<SyntaxParam>, values: map<string, string>, i: nat, shown: seq<string>)
    requires i < |ps| && Lower(ps[i].name) in values && shown == Present(ps[..i], values)
    ensures Present(ps[..i + 1], values) == shown + [values[Lower(ps[i].name)]]
  {
    assert ps[..i + 1][..i] == ps[..i];
  }

  /** One more syntax parameter without a value adds nothing. */
  lemma PresentWithout(ps: seq<SyntaxParam>, values: map<string, string>, i: nat, shown: seq<string>)
    requires i < |ps| && Lower(ps[i].name) !in values && shown == Present(ps[..i], values)
    ensures Present(ps[..i + 1], values) == shown
  {
    assert ps[..i + 1][..i] == ps[..i];
  }

  /** One more value adds a space and the value, quoted. */
  lemma ArgsSnoc(prefix: string, vs: seq<string>, v: string)
    ensures prefix + Args(vs) + " " + Quote(v) == prefix + Args(vs + [v])
  {
    ArgsAppend(vs, [v]);
    ArgsOne(v);
  }

  // ---------------------------------------------------------------------
  // Reading a compiled command back

  lemma ArgsShape(vs: seq<string>)
    ensures Args(vs) == "" || Args(vs)[0] == ' '
    ensures vs == [] ==> Args(vs) == ""
  {
  }

  lemma ParamsAfterArgs(vs: seq<string>)
    requires NoEmpty(vs)
    ensures ParamsAfter(Args(vs)) == vs
  {
    if vs != [] {
      TokenizeArgs(vs);
    }
  }

  /** A compiled command's primary alias leads back to its type. */
  lemma PrimaryAliasResolves(p: Parser, ty: string)
    requires Built(p) && UniqueAliases(p.config.aliases) && ty in p.config.order
    requires PrimaryAlias(p.config, ty).Some?
    ensures Lower(PrimaryAlias(p.config, ty).value) in p.lowerAlias
    ensures p.lowerAlias[Lower(PrimaryAlias(p.config, ty).value)] == ty
  {
    AliasTableComplete(p.config.aliases, p.config.order, ty, PrimaryAlias(p.config, ty).value);
  }

  /** The round trip from the list form: the compiled command parses back
      into its type, its primary alias and exactly the given values, and
      passes validation. Values must be non-empty (no empty token is ever
      read back) and the alias must hold no space. */
  lemma CompileListRoundTrip(p: Parser, ty: string, vs: seq<string>)
    requires Built(p) && UniqueAliases(p.config.aliases) && ty in p.config.order
    requires CompileList(p, ty, vs).Some? && ' ' !in PrimaryAlias(p.config, ty).value && NoEmpty(vs)
    ensures var c := ParseCommand(p, CompileList(p, ty, vs));
            c.Some? && c.value.commandType == ty && c.value.usedAlias == PrimaryAlias(p.config, ty).value
            && c.value.parameters == vs && Validate(p, c) == Success
  {
    var alias := PrimaryAlias(p.config, ty).value;
    ArgsShape(vs);
    ParseSlashed(p, alias, Args(vs));
    PrimaryAliasResolves(p, ty);
    ParamsAfterArgs(vs);
  }

  lemma {:induction false} PresentAll(ps: seq<SyntaxParam>, values: map<string, string>)
    requires forall i :: 0 <= i < |ps| ==> Lower(ps[i].name) in values
    ensures |Present(ps, values)| == |ps|
    ensures forall i :: 0 <= i < |ps| ==> Present(ps, values)[i] == values[Lower(ps[i].name)]
    decreases |ps|
  {
    if ps != [] {
      PresentAll(ps[..|ps| - 1], values);
    }
  }

  /** The round trip from the map form: when every syntax parameter has a
      non-empty value and the names are distinct, the compiled command parses
      back into its type with each value under its own name. */
  lemma CompileMapRoundTrip(p: Parser, ty: string, values: map<string, string>)
    requires Built(p) && UniqueAliases(p.config.aliases) && ty in p.config.order
    requires CompileMap(p, ty, values).Some? && ' ' !in PrimaryAlias(p.config, ty).value
    requires DistinctNames(p.cache[ty])
    requires forall i :: 0 <= i < |p.cache[ty]| ==>
               Lower(p.cache[ty][i].name) in values && values[Lower(p.cache[ty][i].name)] != ""
    ensures var c := ParseCommand(p, CompileMap(p, ty, values));
            c.Some? && c.value.commandType == ty && Validate(p, c) == Success
            && forall i :: 0 <= i < |p.cache[ty]| ==>
                 GetParameter(c.value, p.cache[ty][i].name) == Some(values[Lower(p.cache[ty][i].name)])
  {
    var ps := p.cache[ty];
    var vs := Present(ps, values);
    PresentAll(ps, values);
    assert NoEmpty(vs);
    var alias := PrimaryAlias(p.config, ty).value;
    ArgsShape(vs);
    ParseSlashed(p, alias, Args(vs));
    PrimaryAliasResolves(p, ty);
    ParamsAfterArgs(vs);
    var c := ParseCommand(p, CompileMap(p, ty, values)).value;
    assert c.parameters == vs;
    assert RequiredCount(ps) <= |ps|;
    forall i | 0 <= i < |ps|
      ensures GetParameter(c, ps[i].name) == Some(values[Lower(ps[i].name)])
    {
      NamedLookup(ps, vs, |ps|, i);
    }
  }
}
