// The message kinds a plugin can be asked to show, with the plugin's
// case-insensitive name lookup and lowercase rendering.
module MessageTypes {
  import opened Common

  datatype MessageType = Info | Success | Warn | Error | Question | Announce | NoPrefix

  /** Every constant, in declaration order. */
  const AllTypes: seq<MessageType> := [Info, Success, Warn, Error, Question, Announce, NoPrefix]

  /** The constant's declared name. */
  function Name(t: MessageType): (r: string)
    ensures |r| > 0 && forall i :: 0 <= i < |r| ==> !IsLowerChar(r[i])
  {
    match t
    case Info => "INFO"
    case Success => "SUCCESS"
    case Warn => "WARN"
    case Error => "ERROR"
    case Question => "QUESTION"
    case Announce => "ANNOUNCE"
    case NoPrefix => "NO_PREFIX"
  }

  lemma NamesDistinct(a: MessageType, b: MessageType)
    requires Name(a) == Name(b)
    ensures a == b
  {
  }

  lemma UpperOfNoLower(s: string)
    requires forall i :: 0 <= i < |s| ==> !IsLowerChar(s[i])
    ensures Upper(s) == s
  {
  }

  lemma UpperName(t: MessageType)
    ensures Upper(Name(t)) == Name(t)
  {
    UpperOfNoLower(Name(t));
  }

  lemma InAllTypes(t: MessageType)
    ensures t in AllTypes
  {
  }

  /** The lookup table filled once, keyed by upper-cased name. */
  method BuildLookup() returns (m: map<string, MessageType>)
    ensures forall t :: Upper(Name(t)) in m && m[Upper(Name(t))] == t
    ensures forall s :: s in m ==> s == Upper(Name(m[s]))
  {
    m := map[];
    var i := 0;
    while i < |AllTypes|
      invariant 0 <= i <= |AllTypes|
      invariant LookupHas(m, i)
    {
      var t := AllTypes[i];
      var key := Upper(Name(t));
      UpperName(t);
      LookupStep(m, i, key);
      m := m[key := t];
      i := i + 1;
    }
    LookupDone(m);
  }

  /** The table holds the first `n` constants under their names, and only
      names of what they map to. */
  ghost predicate LookupHas(m: map<string, MessageType>, n: nat)
    requires n <= |AllTypes|
  {
    (forall t :: t in AllTypes[..n] ==> Name(t) in m && m[Name(t)] == t)
    && (forall s :: s in m ==> s == Name(m[s]))
  }

  lemma LookupStep(m: map<string, MessageType>, i: nat, key: string)
    requires i < |AllTypes| && LookupHas(m, i) && key == Name(AllTypes[i])
    ensures LookupHas(m[key := AllTypes[i]], i + 1)
  {
    TakeSnoc(AllTypes, i);
  }

  lemma LookupDone(m: map<string, MessageType>)
    requires LookupHas(m, |AllTypes|)
    ensures forall t :: Upper(Name(t)) in m && m[Upper(Name(t))] == t
    ensures forall s :: s in m ==> s == Upper(Name(m[s]))
  {
    assert AllTypes[..|AllTypes|] == AllTypes;
    forall t ensures Upper(Name(t)) in m && m[Upper(Name(t))] == t {
      UpperName(t);
      InAllTypes(t);
    }
    forall s | s in m ensures s == Upper(Name(m[s])) {
      UpperName(m[s]);
    }
  }

  /** A null argument is modelled by None. */
  function FromString(s: Option<string>): (r: Option<MessageType>)
    ensures s.None? ==> r.None?
    ensures s.Some? && r.None? ==> forall t :: Upper(s.value) != Name(t)
    ensures r.Some? ==> Upper(s.value) == Name(r.value)
  {
    if s.None? then None
    else
      var u := Upper(s.value);
      if u == "INFO" then Some(Info)
      else if u == "SUCCESS" then Some(Success)
      else if u == "WARN" then Some(Warn)
      else if u == "ERROR" then Some(Error)
      else if u == "QUESTION" then Some(Question)
      else if u == "ANNOUNCE" then Some(Announce)
      else if u == "NO_PREFIX" then Some(NoPrefix)
      else None
  }

  function ToString(t: MessageType): (r: string)
    ensures Upper(r) == Name(t)
    ensures forall i :: 0 <= i < |r| ==> !IsUpperChar(r[i])
  {
    UpperOfLower(Name(t));
    UpperOfNoLower(Name(t));
    Lower(Name(t))
  }

  /** Rendering and looking up again gives the same constant. */
  lemma FromToString(t: MessageType)
    ensures FromString(Some(ToString(t))) == Some(t)
  {
    FromName(ToString(t), t);
  }

  /** Any spelling of a constant's name finds that constant. */
  lemma FromName(s: string, t: MessageType)
    requires Upper(s) == Name(t)
    ensures FromString(Some(s)) == Some(t)
  {
    var r := FromString(Some(s));
    assert r.Some?;
    NamesDistinct(r.value, t);
  }

  /** The lookup ignores case: names differing only in case find the same constant. */
  lemma FromStringIgnoresCase(a: string, b: string)
    requires Upper(a) == Upper(b)
    ensures FromString(Some(a)) == FromString(Some(b))
  {
  }
}
