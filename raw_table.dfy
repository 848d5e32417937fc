/**
 * The already-parsed configuration file and the lookups the resolver makes on it:
 * `get` with and without a fallback, and `getboolean` with a fallback, as the
 * Python `configparser` library performs them with `optionxform = str` (section and
 * key names are compared verbatim).
 */
module RawTable {
  import opened Wrappers

  /** Each section name maps to the section's (key, value) pairs in file order. */
  type Table = map<string, seq<(string, string)>>

  /** The parser's own exceptions that the lookups below raise. */
  datatype LookupError =
    | NoSection(section: string)
    | NoOption(section: string, key: string)
    | NotABoolean(section: string, key: string, value: string)

  /** `key` is bound to `value` in `pairs`: the first pair with that key carries that value. */
  ghost predicate BindsIn(pairs: seq<(string, string)>, key: string, value: string)
  {
    exists i :: 0 <= i < |pairs| && pairs[i] == (key, value) &&
      forall j :: 0 <= j < i ==> pairs[j].0 != key
  }

  /** `key` is bound to `value` in section `section` of the table. */
  ghost predicate Binds(t: Table, section: string, key: string, value: string)
  {
    section in t && BindsIn(t[section], key, value)
  }

  /** The table has no value for `key` in `section`: the section or the key is missing. */
  ghost predicate Absent(t: Table, section: string, key: string)
  {
    section !in t || forall i :: 0 <= i < |t[section]| ==> t[section][i].0 != key
  }

  /** `value` is what a lookup with a fallback reads: the bound value, or the fallback if none. */
  ghost predicate ReadOr(t: Table, section: string, key: string, fallback: string, value: string)
  {
    (Absent(t, section, key) && value == fallback) || Binds(t, section, key, value)
  }

  /** The exception that `get` without a fallback raises for an absent key. */
  function AbsenceError(t: Table, section: string, key: string): (e: LookupError)
    ensures e.NoSection? <==> section !in t
    ensures e.NoSection? ==> e.section == section
    ensures e.NoOption? <==> section in t
    ensures e.NoOption? ==> e.section == section && e.key == key
  {
    if section in t then NoOption(section, key) else NoSection(section)
  }

  lemma BindsInTail(pairs: seq<(string, string)>, key: string, value: string)
    requires pairs != [] && pairs[0].0 != key
    ensures BindsIn(pairs, key, value) <==> BindsIn(pairs[1..], key, value)
  {
    if BindsIn(pairs, key, value) {
      var i :| 0 <= i < |pairs| && pairs[i] == (key, value) &&
        forall j :: 0 <= j < i ==> pairs[j].0 != key;
      assert pairs[1..][i - 1] == pairs[i];
      assert forall j :: 0 <= j < i - 1 ==> pairs[1..][j] == pairs[j + 1];
    }
    if BindsIn(pairs[1..], key, value) {
      var i :| 0 <= i < |pairs[1..]| && pairs[1..][i] == (key, value) &&
        forall j :: 0 <= j < i ==> pairs[1..][j].0 != key;
      assert pairs[i + 1] == (key, value);
      assert forall j :: 1 <= j < i + 1 ==> pairs[j] == pairs[1..][j - 1];
    }
  }

  /** The value of `key` among the pairs of one section: the dictionary lookup. */
  function FindKey(pairs: seq<(string, string)>, key: string): (r: Option<string>)
    ensures r.None? <==> forall i :: 0 <= i < |pairs| ==> pairs[i].0 != key
    ensures forall v :: BindsIn(pairs, key, v) <==> r == Some(v)
  {
    if pairs == [] then None
    else if pairs[0].0 == key then
      assert BindsIn(pairs, key, pairs[0].1);
      Some(pairs[0].1)
    else
      assert forall v :: BindsIn(pairs, key, v) <==> BindsIn(pairs[1..], key, v) by {
        forall v { BindsInTail(pairs, key, v); }
      }
      assert forall i :: 1 <= i < |pairs| ==> pairs[i] == pairs[1..][i - 1];
      FindKey(pairs[1..], key)
  }

  /** `config.get(section, key, fallback=None)`. */
  function GetOptional(t: Table, section: string, key: string): (r: Option<string>)
    ensures r.None? <==> Absent(t, section, key)
    ensures forall v :: Binds(t, section, key, v) <==> r == Some(v)
  {
    if section in t then FindKey(t[section], key) else None
  }

  /** `config.get(section, key)` with no fallback: an absent key raises. */
  function Get(t: Table, section: string, key: string): (r: Result<string, LookupError>)
    ensures Absent(t, section, key) ==> r == Failure(AbsenceError(t, section, key))
    ensures forall v :: Binds(t, section, key, v) <==> r == Success(v)
  {
    match GetOptional(t, section, key)
    case Some(v) => Success(v)
    case None => Failure(AbsenceError(t, section, key))
  }

  /** `config.get(section, key, fallback=fallback)`: never raises. */
  function GetOr(t: Table, section: string, key: string, fallback: string): (r: string)
    ensures ReadOr(t, section, key, fallback, r)
    ensures !Absent(t, section, key) ==> Binds(t, section, key, r)
  {
    match GetOptional(t, section, key)
    case Some(v) => v
    case None => fallback
  }

  /** The spellings `getboolean` accepts, once lower-cased. */
  const TrueWords: set<string> := {"1", "yes", "true", "on"}
  const FalseWords: set<string> := {"0", "no", "false", "off"}

  /** Lower-casing of one character: A to Z become a to z, every other character is kept. */
  function LowerChar(c: char): (r: char)
    ensures !('A' <= r <= 'Z')
    ensures 'A' <= c <= 'Z' ==> 'a' <= r <= 'z' && r as int - 'a' as int == c as int - 'A' as int
    ensures !('A' <= c <= 'Z') ==> r == c
  {
    if 'A' <= c <= 'Z' then (c as int - 'A' as int + 'a' as int) as char else c
  }

  /** Lower-casing of the letters A to Z. */
  function Lower(s: string): (r: string)
    ensures |r| == |s|
    ensures forall i :: 0 <= i < |s| ==> r[i] == LowerChar(s[i])
    ensures forall i :: 0 <= i < |r| ==> !('A' <= r[i] <= 'Z')
  {
    seq(|s|, i requires 0 <= i < |s| => LowerChar(s[i]))
  }

  /** Conversion of a value to a boolean; None where `getboolean` raises ValueError. */
  function ParseBoolean(s: string): (r: Option<bool>)
    ensures r == Some(true) <==> Lower(s) in TrueWords
    ensures r == Some(false) <==> Lower(s) in FalseWords
    ensures r.None? <==> Lower(s) !in TrueWords + FalseWords
  {
    var w := Lower(s);
    if w in TrueWords then Some(true)
    else if w in FalseWords then Some(false)
    else None
  }

  /** The conversion ignores the case of the letters: lower-casing first changes nothing. */
  lemma ParseBooleanIgnoresCase(s: string)
    ensures ParseBoolean(Lower(s)) == ParseBoolean(s)
  {
    assert Lower(Lower(s)) == Lower(s);
  }

  /** `config.getboolean(section, key, fallback=fallback)`: absent keys give the fallback,
      present values that are no boolean spelling raise. */
  function GetBoolean(t: Table, section: string, key: string, fallback: bool): (r: Result<bool, LookupError>)
    ensures Absent(t, section, key) ==> r == Success(fallback)
    ensures forall v :: Binds(t, section, key, v) && ParseBoolean(v).Some? ==> r == Success(ParseBoolean(v).value)
    ensures forall v :: Binds(t, section, key, v) && ParseBoolean(v).None? ==> r == Failure(NotABoolean(section, key, v))
  {
    match GetOptional(t, section, key)
    case None => Success(fallback)
    case Some(v) =>
      match ParseBoolean(v)
      case Some(b) => Success(b)
      case None => Failure(NotABoolean(section, key, v))
  }
}
