// Durations in the bot's own text form: the unit table, the alias map built
// from localized unit names, parsing "<digits><letters>" pairs, and the
// greedy largest-unit-first rendering of a number of seconds.
module TimeUnits {
  import opened Common

  datatype Unit = Year | Month | Week | Day | Hour | Minute | Second

  function Seconds(u: Unit): (r: int)
    ensures r >= 1
    ensures u == Second <==> r == 1
  {
    match u
    case Year => 31536000
    case Month => 2592000
    case Week => 604800
    case Day => 86400
    case Hour => 3600
    case Minute => 60
    case Second => 1
  }

  function CanonicalName(u: Unit): (r: string)
    ensures |r| > 0 && Lower(r) == r
  {
    match u
    case Year => "year"
    case Month => "month"
    case Week => "week"
    case Day => "day"
    case Hour => "hour"
    case Minute => "minute"
    case Second => "second"
  }

  /** The table in declaration order, which is also largest first. */
  const AllUnits: seq<Unit> := [Year, Month, Week, Day, Hour, Minute, Second]

  lemma AllUnitsSorted()
    ensures forall i, j :: 0 <= i < j < |AllUnits| ==> Seconds(AllUnits[i]) > Seconds(AllUnits[j])
    ensures forall u :: u in AllUnits
  {
    forall u ensures u in AllUnits {
      match u
      case Year => assert AllUnits[0] == u;
      case Month => assert AllUnits[1] == u;
      case Week => assert AllUnits[2] == u;
      case Day => assert AllUnits[3] == u;
      case Hour => assert AllUnits[4] == u;
      case Minute => assert AllUnits[5] == u;
      case Second => assert AllUnits[6] == u;
    }
  }

  /** `to_timedelta`: only canonical unit names (in any case) are accepted. */
  function ToSeconds(value: int, unit: string): (r: Result<int>)
    ensures r.Err? ==> forall u :: Lower(unit) != CanonicalName(u)
    ensures forall u :: Lower(unit) == CanonicalName(u) ==> r == Ok(value * Seconds(u))
  {
    var l := Lower(unit);
    if l == "year" then Ok(value * Seconds(Year))
    else if l == "month" then Ok(value * Seconds(Month))
    else if l == "week" then Ok(value * Seconds(Week))
    else if l == "day" then Ok(value * Seconds(Day))
    else if l == "hour" then Ok(value * Seconds(Hour))
    else if l == "minute" then Ok(value * Seconds(Minute))
    else if l == "second" then Ok(value * Seconds(Second))
    else Err("Unknown time unit: " + l)
  }

  /** The localized forms of one unit. */
  datatype BasicUnit = BasicUnit(singular: seq<string>, plural: seq<string>)
  datatype UnitNames = UnitNames(year: BasicUnit, month: BasicUnit, week: BasicUnit, day: BasicUnit,
                                 hour: BasicUnit, minute: BasicUnit, second: BasicUnit)

  function NamesOf(n: UnitNames, u: Unit): BasicUnit
  {
    match u
    case Year => n.year
    case Month => n.month
    case Week => n.week
    case Day => n.day
    case Hour => n.hour
    case Minute => n.minute
    case Second => n.second
  }

  /** Rendering takes the first singular and first plural form, so both must exist. */
  predicate Renderable(n: UnitNames)
  {
    forall u :: |NamesOf(n, u).singular| > 0 && |NamesOf(n, u).plural| > 0
  }

  // ---------------------------------------------------------------------
  // The alias map

  function AddForms(m: map<string, Unit>, forms: seq<string>, u: Unit): (r: map<string, Unit>)
  {
    if |forms| == 0 then m else AddForms(m, forms[..|forms| - 1], u)[Lower(forms[|forms| - 1]) := u]
  }

  function AddUnit(m: map<string, Unit>, n: UnitNames, u: Unit): map<string, Unit>
  {
    AddForms(m, NamesOf(n, u).singular + NamesOf(n, u).plural, u)[CanonicalName(u) := u]
  }

  /** The alias map after the given units were processed in order. */
  function Aliases(n: UnitNames, us: seq<Unit>): map<string, Unit>
  {
    if |us| == 0 then map[] else AddUnit(Aliases(n, us[..|us| - 1]), n, us[|us| - 1])
  }

  /** A key is either a unit's canonical name or the lower-cased form of one of its names. */
  predicate NamesUnit(n: UnitNames, k: string, u: Unit)
  {
    k == CanonicalName(u) || exists f :: f in NamesOf(n, u).singular + NamesOf(n, u).plural && k == Lower(f)
  }

  lemma {:induction false} AddFormsSound(m: map<string, Unit>, n: UnitNames, forms: seq<string>, u: Unit, k: string)
    requires forms <= NamesOf(n, u).singular + NamesOf(n, u).plural
    requires k in AddForms(m, forms, u)
    ensures (k in m && AddForms(m, forms, u)[k] == m[k]) || (AddForms(m, forms, u)[k] == u && NamesUnit(n, k, u))
  {
    if |forms| > 0 {
      var last := forms[|forms| - 1];
      assert forms[..|forms| - 1] <= forms;
      if k != Lower(last) {
        AddFormsSound(m, n, forms[..|forms| - 1], u, k);
      } else {
        assert last in NamesOf(n, u).singular + NamesOf(n, u).plural;
      }
    }
  }

  lemma LowerOfLower(f: string, k: string)
    requires k == Lower(f)
    ensures Lower(k) == k
  {
    LowerIdempotent(f);
  }

  /** Every alias is stored lower-cased and names the unit it maps to. */
  lemma {:induction false} AliasesSound(n: UnitNames, us: seq<Unit>, k: string)
    requires k in Aliases(n, us)
    ensures Lower(k) == k
    ensures NamesUnit(n, k, Aliases(n, us)[k])
  {
    var u := us[|us| - 1];
    var prev := Aliases(n, us[..|us| - 1]);
    var forms := NamesOf(n, u).singular + NamesOf(n, u).plural;
    if k != CanonicalName(u) {
      AddFormsSound(prev, n, forms, u, k);
      if k in prev && AddForms(prev, forms, u)[k] == prev[k] {
        AliasesSound(n, us[..|us| - 1], k);
      } else {
        var f :| f in forms && k == Lower(f);
        LowerOfLower(f, k);
      }
    }
  }

  /** The inner loop over one unit's forms. */
  method AddFormsLoop(m0: map<string, Unit>, forms: seq<string>, u: Unit) returns (m: map<string, Unit>)
    ensures m == AddForms(m0, forms, u)
  {
    m := m0;
    var j := 0;
    while j < |forms|
      invariant 0 <= j <= |forms|
      invariant m == AddForms(m0, forms[..j], u)
    {
      assert forms[..j + 1][..j] == forms[..j];
      m := m[Lower(forms[j]) := u];
      j := j + 1;
    }
    assert forms[..j] == forms;
  }

  /** The constructor's double loop, proved against `Aliases`. */
  method BuildAliases(n: UnitNames) returns (m: map<string, Unit>)
    ensures m == Aliases(n, AllUnits)
  {
    m := map[];
    var i := 0;
    while i < |AllUnits|
      invariant 0 <= i <= |AllUnits|
      invariant m == Aliases(n, AllUnits[..i])
    {
      var u := AllUnits[i];
      AliasesStep(n, AllUnits, i);
      m := AddFormsLoop(m, NamesOf(n, u).singular + NamesOf(n, u).plural, u);
      m := m[CanonicalName(u) := u];
      i := i + 1;
    }
    assert AllUnits[..i] == AllUnits;
  }

  lemma AliasesStep(n: UnitNames, us: seq<Unit>, i: nat)
    requires i < |us|
    ensures Aliases(n, us[..i + 1]) == AddUnit(Aliases(n, us[..i]), n, us[i])
  {
    assert us[..i + 1][..i] == us[..i];
  }

  // ---------------------------------------------------------------------
  // Scanning "<digits><spaces><letters>" pairs

  predicate IsSpace(c: char)
  {
    c == ' ' || c == '\t' || c == '\n' || c == '\r' || c as int == 11 || c as int == 12
  }

  predicate IsAsciiLetter(c: char) { IsLetter(c) }

  function DigitRun(s: string, i: nat): (j: nat)
    requires i <= |s|
    ensures i <= j <= |s| && (j == |s| || !IsDigit(s[j]))
    ensures forall x :: i <= x < j ==> IsDigit(s[x])
    decreases |s| - i
  {
    if i < |s| && IsDigit(s[i]) then DigitRun(s, i + 1) else i
  }

  function SpaceRun(s: string, i: nat): (j: nat)
    requires i <= |s|
    ensures i <= j <= |s| && (j == |s| || !IsSpace(s[j]))
    ensures forall x :: i <= x < j ==> IsSpace(s[x])
    decreases |s| - i
  {
    if i < |s| && IsSpace(s[i]) then SpaceRun(s, i + 1) else i
  }

  function LetterRun(s: string, i: nat): (j: nat)
    requires i <= |s|
    ensures i <= j <= |s| && (j == |s| || !IsAsciiLetter(s[j]))
    ensures forall x :: i <= x < j ==> IsAsciiLetter(s[x])
    decreases |s| - i
  {
    if i < |s| && IsAsciiLetter(s[i]) then LetterRun(s, i + 1) else i
  }

  /** A digit run ends exactly where the digits stop. */
  lemma {:induction false} DigitRunTo(s: string, i: nat, j: nat)
    requires i <= j <= |s|
    requires forall x :: i <= x < j ==> IsDigit(s[x])
    requires j == |s| || !IsDigit(s[j])
    ensures DigitRun(s, i) == j
    decreases j - i
  {
    if i < j {
      DigitRunTo(s, i + 1, j);
    }
  }

  /** A letter run ends exactly where the letters stop. */
  lemma {:induction false} LetterRunTo(s: string, i: nat, j: nat)
    requires i <= j <= |s|
    requires forall x :: i <= x < j ==> IsAsciiLetter(s[x])
    requires j == |s| || !IsAsciiLetter(s[j])
    ensures LetterRun(s, i) == j
    decreases j - i
  {
    if i < j {
      LetterRunTo(s, i + 1, j);
    }
  }

  function DigitValue(c: char): int
    requires IsDigit(c)
  {
    c as int - '0' as int
  }

  /** The decimal value of a run of digits. */
  function DecimalValue(ds: string): (r: nat)
    requires forall x :: 0 <= x < |ds| ==> IsDigit(ds[x])
  {
    if |ds| == 0 then 0 else DecimalValue(ds[..|ds| - 1]) * 10 + DigitValue(ds[|ds| - 1])
  }

  datatype Pair = Pair(value: nat, unit: string)

  /** All non-overlapping matches from position `i` on, leftmost first. */
  function Scan(s: string, i: nat): (r: seq<Pair>)
    requires i <= |s|
    ensures forall x :: 0 <= x < |r| ==> |r[x].unit| > 0 && forall y :: 0 <= y < |r[x].unit| ==> IsAsciiLetter(r[x].unit[y])
    decreases |s| - i
  {
    if i == |s| then []
    else if IsDigit(s[i]) then
      var j := DigitRun(s, i);
      var k := SpaceRun(s, j);
      if k < |s| && IsAsciiLetter(s[k]) then
        var m := LetterRun(s, k);
        [Pair(DecimalValue(s[i..j]), s[k..m])] + Scan(s, m)
      else Scan(s, i + 1)
    else Scan(s, i + 1)
  }

  /** Without any digit there is nothing to match. */
  lemma {:induction false} ScanNoDigit(s: string, i: nat)
    requires i <= |s|
    requires forall x :: i <= x < |s| ==> !IsDigit(s[x])
    ensures Scan(s, i) == []
    decreases |s| - i
  {
    if i < |s| {
      ScanNoDigit(s, i + 1);
    }
  }

  /** The seconds a list of matches adds up to; unknown units add nothing. */
  function TotalSeconds(ps: seq<Pair>, aliases: map<string, Unit>): (r: nat)
  {
    if |ps| == 0 then 0
    else
      var last := ps[|ps| - 1];
      TotalSeconds(ps[..|ps| - 1], aliases) + (if last.unit in aliases then last.value * Seconds(aliases[last.unit]) else 0)
  }

  /** One pair adds its value times its unit's seconds, or nothing for an unknown unit. */
  lemma TotalSecondsOne(p: Pair, aliases: map<string, Unit>)
    ensures TotalSeconds([p], aliases) == if p.unit in aliases then p.value * Seconds(aliases[p.unit]) else 0
  {
    assert [p][..0] == [];
  }

  lemma {:induction false} TotalSecondsAppend(a: seq<Pair>, b: seq<Pair>, aliases: map<string, Unit>)
    ensures TotalSeconds(a + b, aliases) == TotalSeconds(a, aliases) + TotalSeconds(b, aliases)
    decreases |b|
  {
    if |b| > 0 {
      assert (a + b)[..|a + b| - 1] == a + b[..|b| - 1];
      TotalSecondsAppend(a, b[..|b| - 1], aliases);
    } else {
      assert a + b == a;
    }
  }

  /** A pair whose unit is not an alias contributes nothing, wherever it appears. */
  lemma UnknownUnitAddsNothing(a: seq<Pair>, p: Pair, b: seq<Pair>, aliases: map<string, Unit>)
    requires p.unit !in aliases
    ensures TotalSeconds(a + [p] + b, aliases) == TotalSeconds(a + b, aliases)
  {
    TotalSecondsAppend(a + [p], b, aliases);
    TotalSecondsAppend(a, b, aliases);
    assert (a + [p])[..|a + [p]| - 1] == a;
  }

  /** `parse_time_string`: the input is lower-cased, then every known pair is added up. */
  method ParseTimeString(s: string, aliases: map<string, Unit>) returns (total: nat)
    ensures total == TotalSeconds(Scan(Lower(s), 0), aliases)
    ensures |s| == 0 ==> total == 0
  {
    if |s| == 0 {
      return 0;
    }
    var ms := Scan(Lower(s), 0);
    total := 0;
    var i := 0;
    while i < |ms|
      invariant 0 <= i <= |ms|
      invariant total == TotalSeconds(ms[..i], aliases)
    {
      assert ms[..i + 1][..i] == ms[..i];
      if ms[i].unit in aliases {
        total := total + ms[i].value * Seconds(aliases[ms[i].unit]);
      }
      i := i + 1;
    }
    assert ms[..i] == ms;
  }

  /** Inputs that differ only in letter case parse to the same number of seconds. */
  lemma ParseIgnoresCase(s: string, t: string, aliases: map<string, Unit>)
    requires Lower(s) == Lower(t)
    ensures TotalSeconds(Scan(Lower(s), 0), aliases) == TotalSeconds(Scan(Lower(t), 0), aliases)
  {
  }

  /** Digits directly followed by letters are matched as one pair. */
  lemma ScanOnePair(ds: string, w: string)
    requires |ds| > 0 && forall x :: 0 <= x < |ds| ==> IsDigit(ds[x])
    requires |w| > 0 && forall x :: 0 <= x < |w| ==> IsAsciiLetter(w[x])
    ensures Scan(ds + w, 0) == [Pair(DecimalValue(ds), w)]
  {
    var s := ds + w;
    assert forall x :: 0 <= x < |ds| ==> IsDigit(s[x]);
    assert forall x :: |ds| <= x < |s| ==> s[x] == w[x - |ds|];
    DigitRunTo(s, 0, |ds|);
    assert SpaceRun(s, |ds|) == |ds|;
    LetterRunTo(s, |ds|, |s|);
    assert s[0..|ds|] == ds;
    assert s[|ds|..|s|] == w;
  }

  /** A string without digits parses to zero. */
  lemma ParseWithoutDigits(s: string, aliases: map<string, Unit>)
    requires forall x :: 0 <= x < |s| ==> !IsDigit(s[x])
    ensures TotalSeconds(Scan(Lower(s), 0), aliases) == 0
  {
    ScanNoDigit(Lower(s), 0);
  }

  // ---------------------------------------------------------------------
  // Rendering

  datatype Part = Part(value: nat, unit: Unit)

  /**
   * Greedy decomposition of `rem` over `us`, largest unit first; `count`
   * parts were already produced, and production stops once `maxUnits` is reached.
   */
  function Decompose(rem: nat, us: seq<Unit>, count: nat, maxUnits: int, includeSeconds: bool): (r: seq<Part>)
    ensures forall x :: 0 <= x < |r| ==> r[x].value > 0 && r[x].unit in us
  {
    if |us| == 0 then []
    else
      var u := us[0];
      if !includeSeconds && u == Second then Decompose(rem, us[1..], count, maxUnits, includeSeconds)
      else
        var v := rem / Seconds(u);
        if v > 0 then
          [Part(v, u)] + (if count + 1 >= maxUnits then [] else Decompose(rem % Seconds(u), us[1..], count + 1, maxUnits, includeSeconds))
        else Decompose(rem, us[1..], count, maxUnits, includeSeconds)
  }

  function PartsSeconds(ps: seq<Part>): (r: nat)
  {
    if |ps| == 0 then 0 else ps[0].value * Seconds(ps[0].unit) + PartsSeconds(ps[1..])
  }

  /** At most `maxUnits` parts are produced (one, when `maxUnits` is below one). */
  lemma {:induction false} DecomposeBounded(rem: nat, us: seq<Unit>, count: nat, maxUnits: int, inc: bool)
    requires count == 0 || count < maxUnits
    ensures count + |Decompose(rem, us, count, maxUnits, inc)| <= (if maxUnits > count then maxUnits else count + 1)
    decreases |us|
  {
    if |us| > 0 {
      var u := us[0];
      if !inc && u == Second {
        DecomposeBounded(rem, us[1..], count, maxUnits, inc);
      } else if rem / Seconds(u) > 0 {
        if count + 1 < maxUnits {
          DecomposeBounded(rem % Seconds(u), us[1..], count + 1, maxUnits, inc);
        }
      } else {
        DecomposeBounded(rem, us[1..], count, maxUnits, inc);
      }
    }
  }

  lemma DivMod(rem: nat, d: int)
    requires d >= 1
    ensures (rem / d) * d + rem % d == rem && 0 <= rem % d < d && rem / d >= 0
  {
  }

  lemma PartsSecondsCons(p: Part, t: seq<Part>)
    ensures PartsSeconds([p] + t) == p.value * Seconds(p.unit) + PartsSeconds(t)
  {
    assert ([p] + t)[1..] == t;
  }

  /** The parts never account for more than the input. */
  lemma {:induction false} DecomposeBelow(rem: nat, us: seq<Unit>, count: nat, maxUnits: int, inc: bool)
    ensures PartsSeconds(Decompose(rem, us, count, maxUnits, inc)) <= rem
    decreases |us|
  {
    if |us| > 0 {
      var u := us[0];
      var d := Seconds(u);
      if !inc && u == Second {
        DecomposeBelow(rem, us[1..], count, maxUnits, inc);
      } else if rem / d > 0 {
        var q: nat := rem / d;
        var m: nat := rem % d;
        DivMod(rem, d);
        var tail := if count + 1 >= maxUnits then [] else Decompose(m, us[1..], count + 1, maxUnits, inc);
        assert Decompose(rem, us, count, maxUnits, inc) == [Part(q, u)] + tail;
        PartsSecondsCons(Part(q, u), tail);
        if count + 1 < maxUnits {
          DecomposeBelow(m, us[1..], count + 1, maxUnits, inc);
        }
      } else {
        DecomposeBelow(rem, us[1..], count, maxUnits, inc);
      }
    }
  }

  /**
   * When seconds are rendered and the part limit was not reached, the parts
   * add up to exactly the input.
   */
  lemma {:induction false} DecomposeExact(rem: nat, us: seq<Unit>, count: nat, maxUnits: int)
    requires |us| > 0 && us[|us| - 1] == Second
    requires count + |Decompose(rem, us, count, maxUnits, true)| < maxUnits
    ensures PartsSeconds(Decompose(rem, us, count, maxUnits, true)) == rem
    decreases |us|, 1
  {
    DivMod(rem, Seconds(us[0]));
    if rem / Seconds(us[0]) > 0 {
      ExactTake(rem, us, count, maxUnits);
    } else {
      ExactNone(rem, us, count, maxUnits);
    }
  }

  /** The first unit fits: its part plus the exact rest. */
  lemma {:induction false} ExactTake(rem: nat, us: seq<Unit>, count: nat, maxUnits: int)
    requires |us| > 0 && us[|us| - 1] == Second && rem / Seconds(us[0]) > 0
    requires count + |Decompose(rem, us, count, maxUnits, true)| < maxUnits
    ensures PartsSeconds(Decompose(rem, us, count, maxUnits, true)) == rem
    decreases |us|, 0
  {
    var u := us[0];
    var d := Seconds(u);
    var q: nat := rem / d;
    var m: nat := rem % d;
    DivMod(rem, d);
    var tail := if count + 1 >= maxUnits then [] else Decompose(m, us[1..], count + 1, maxUnits, true);
    assert Decompose(rem, us, count, maxUnits, true) == [Part(q, u)] + tail;
    PartsSecondsCons(Part(q, u), tail);
    assert count + 1 < maxUnits;
    if |us| == 1 {
      assert u == Second;
      assert m == 0;
    } else {
      assert us[1..][|us[1..]| - 1] == Second;
      DecomposeExact(m, us[1..], count + 1, maxUnits);
    }
  }

  /** The first unit does not fit: the rest alone is exact. */
  lemma {:induction false} ExactNone(rem: nat, us: seq<Unit>, count: nat, maxUnits: int)
    requires |us| > 0 && us[|us| - 1] == Second && rem / Seconds(us[0]) == 0
    requires count + |Decompose(rem, us, count, maxUnits, true)| < maxUnits
    ensures PartsSeconds(Decompose(rem, us, count, maxUnits, true)) == rem
    decreases |us|, 0
  {
    if |us| == 1 {
      assert us[0] == Second;
    } else {
      assert Decompose(rem, us, count, maxUnits, true) == Decompose(rem, us[1..], count, maxUnits, true);
      assert us[1..][|us[1..]| - 1] == Second;
      DecomposeExact(rem, us[1..], count, maxUnits);
    }
  }

  /** Decimal rendering of a natural number. */
  function DecimalString(v: nat): (r: string)
    ensures |r| > 0 && forall x :: 0 <= x < |r| ==> IsDigit(r[x])
    ensures DecimalValue(r) == v
  {
    var d := ['0' + (v % 10) as char];
    assert DecimalValue(d) == v % 10;
    if v < 10 then d
    else
      var head := DecimalString(v / 10);
      assert (head + d)[..|head + d| - 1] == head;
      head + d
  }

  /** The decimal text of an integer: Python's `str(int)`, Java's string concatenation of an `Integer`. */
  function IntString(i: int): (r: string)
    ensures i >= 0 ==> r == DecimalString(i)
    ensures i < 0 ==> r == "-" + DecimalString(-i)
  {
    if i < 0 then "-" + DecimalString(-i) else DecimalString(i)
  }

  function RenderPart(p: Part, n: UnitNames): string
    requires Renderable(n)
  {
    DecimalString(p.value) + " " + (if p.value == 1 then NamesOf(n, p.unit).singular[0] else NamesOf(n, p.unit).plural[0])
  }

  function RenderParts(ps: seq<Part>, n: UnitNames): (r: seq<string>)
    requires Renderable(n)
    ensures |r| == |ps|
    ensures forall x :: 0 <= x < |ps| ==> r[x] == RenderPart(ps[x], n)
  {
    if |ps| == 0 then [] else RenderParts(ps[..|ps| - 1], n) + [RenderPart(ps[|ps| - 1], n)]
  }

  /** `from_timedelta`, with the duration given as whole seconds. */
  function Format(seconds: int, maxUnits: int, includeSeconds: bool, n: UnitNames): (r: string)
    requires Renderable(n)
  {
    var total := if seconds < 0 then -seconds else seconds;
    if total == 0 then "0 " + NamesOf(n, Second).plural[0]
    else
      var body := Join(RenderParts(Decompose(total, AllUnits, 0, maxUnits, includeSeconds), n), " ");
      if seconds < 0 then "-" + body else body
  }

  lemma FormatZero(maxUnits: int, includeSeconds: bool, n: UnitNames)
    requires Renderable(n)
    ensures Format(0, maxUnits, includeSeconds, n) == "0 " + NamesOf(n, Second).plural[0]
  {
  }

  /** A negative duration renders as its magnitude with a leading "-". */
  lemma FormatNegative(seconds: int, maxUnits: int, includeSeconds: bool, n: UnitNames)
    requires Renderable(n) && seconds < 0
    ensures Format(seconds, maxUnits, includeSeconds, n) == "-" + Format(-seconds, maxUnits, includeSeconds, n)
  {
  }

  /** The loop of `from_timedelta`, proved against `Decompose`. */
  method DecomposeLoop(seconds: nat, units: seq<Unit>, maxUnits: int, includeSeconds: bool) returns (parts: seq<Part>)
    ensures parts == Decompose(seconds, units, 0, maxUnits, includeSeconds)
  {
    var total: nat := seconds;
    parts := [];
    var i := 0;
    ghost var goal := Decompose(seconds, units, 0, maxUnits, includeSeconds);
    assert units[0..] == units;
    while i < |units|
      invariant 0 <= i <= |units|
      invariant parts + Decompose(total, units[i..], |parts|, maxUnits, includeSeconds) == goal
      invariant |parts| == 0 || |parts| < maxUnits
    {
      var u := units[i];
      if !includeSeconds && u == Second {
        SkipStep(parts, total, units, i, maxUnits, includeSeconds, goal);
        i := i + 1;
        continue;
      }
      var d := Seconds(u);
      var value := total / d;
      if value > 0 {
        TakeStep(parts, total, units, i, maxUnits, includeSeconds, goal);
        parts := parts + [Part(value, u)];
        total := total % d;
        if |parts| >= maxUnits {
          i := |units|;
          break;
        }
      } else {
        NoneStep(parts, total, units, i, maxUnits, includeSeconds, goal);
      }
      i := i + 1;
    }
    if |parts| == 0 || |parts| < maxUnits {
      EmptyTail(parts, total, units, i, maxUnits, includeSeconds, goal);
    }
  }

  /** A unit the loop skips leaves the remaining decomposition unchanged. */
  lemma SkipStep(parts: seq<Part>, total: nat, us: seq<Unit>, i: nat, maxUnits: int, inc: bool, goal: seq<Part>)
    requires i < |us| && !inc && us[i] == Second
    requires parts + Decompose(total, us[i..], |parts|, maxUnits, inc) == goal
    ensures parts + Decompose(total, us[i + 1..], |parts|, maxUnits, inc) == goal
  {
    DecomposeSkip(total, us, i, |parts|, maxUnits, inc);
  }

  /** A unit longer than what is left produces no part. */
  lemma NoneStep(parts: seq<Part>, total: nat, us: seq<Unit>, i: nat, maxUnits: int, inc: bool, goal: seq<Part>)
    requires i < |us| && total / Seconds(us[i]) == 0
    requires parts + Decompose(total, us[i..], |parts|, maxUnits, inc) == goal
    ensures parts + Decompose(total, us[i + 1..], |parts|, maxUnits, inc) == goal
  {
    DecomposeNone(total, us, i, |parts|, maxUnits, inc);
  }

  /** A unit that fits produces its part; the rest is decomposed after it,
      unless the part count has reached the maximum. */
  lemma TakeStep(parts: seq<Part>, total: nat, us: seq<Unit>, i: nat, maxUnits: int, inc: bool, goal: seq<Part>)
    requires i < |us| && (inc || us[i] != Second) && total / Seconds(us[i]) > 0
    requires parts + Decompose(total, us[i..], |parts|, maxUnits, inc) == goal
    ensures var p2 := parts + [Part(total / Seconds(us[i]), us[i])];
            (|p2| >= maxUnits ==> p2 == goal)
            && (|p2| < maxUnits ==> p2 + Decompose(total % Seconds(us[i]), us[i + 1..], |p2|, maxUnits, inc) == goal)
  {
    var p := Part(total / Seconds(us[i]), us[i]);
    var tail := if |parts| + 1 >= maxUnits then [] else Decompose(total % Seconds(us[i]), us[i + 1..], |parts| + 1, maxUnits, inc);
    DecomposeTake(total, us, i, |parts|, maxUnits, inc);
    SnocTail(parts, p, tail);
  }

  lemma SnocTail(parts: seq<Part>, p: Part, tail: seq<Part>)
    ensures parts + ([p] + tail) == (parts + [p]) + tail
    ensures |parts + [p]| == |parts| + 1
    ensures tail == [] ==> (parts + [p]) + tail == parts + [p]
  {
  }

  lemma EmptyTail(parts: seq<Part>, total: nat, us: seq<Unit>, i: nat, maxUnits: int, inc: bool, goal: seq<Part>)
    requires i == |us| && parts + Decompose(total, us[i..], |parts|, maxUnits, inc) == goal
    ensures parts == goal
  {
    assert us[i..] == [];
    assert parts + [] == parts;
  }

  lemma DecomposeSkip(rem: nat, us: seq<Unit>, i: nat, count: nat, maxUnits: int, inc: bool)
    requires i < |us| && !inc && us[i] == Second
    ensures Decompose(rem, us[i..], count, maxUnits, inc) == Decompose(rem, us[i + 1..], count, maxUnits, inc)
  {
    assert us[i..][0] == us[i] && us[i..][1..] == us[i + 1..];
  }

  lemma DecomposeNone(rem: nat, us: seq<Unit>, i: nat, count: nat, maxUnits: int, inc: bool)
    requires i < |us| && rem / Seconds(us[i]) == 0
    ensures Decompose(rem, us[i..], count, maxUnits, inc) == Decompose(rem, us[i + 1..], count, maxUnits, inc)
  {
    assert us[i..][0] == us[i] && us[i..][1..] == us[i + 1..];
  }

  lemma DecomposeTake(rem: nat, us: seq<Unit>, i: nat, count: nat, maxUnits: int, inc: bool)
    requires i < |us| && (inc || us[i] != Second) && rem / Seconds(us[i]) > 0
    ensures Decompose(rem, us[i..], count, maxUnits, inc) ==
            [Part(rem / Seconds(us[i]), us[i])]
              + (if count + 1 >= maxUnits then [] else Decompose(rem % Seconds(us[i]), us[i + 1..], count + 1, maxUnits, inc))
  {
    assert us[i..][0] == us[i] && us[i..][1..] == us[i + 1..];
  }

  /** `from_timedelta`, with the duration given as whole seconds. */
  method FromTimedelta(seconds: int, maxUnits: int, includeSeconds: bool, n: UnitNames) returns (r: string)
    requires Renderable(n)
    ensures r == Format(seconds, maxUnits, includeSeconds, n)
  {
    var isNegative := seconds < 0;
    var total: nat := if seconds < 0 then -seconds else seconds;
    if total == 0 {
      return "0 " + NamesOf(n, Second).plural[0];
    }
    var parts := DecomposeLoop(total, AllUnits, maxUnits, includeSeconds);
    var body := Join(RenderParts(parts, n), " ");
    r := if isNegative then "-" + body else body;
  }
}
