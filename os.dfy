/**
 * `Os`: the operating system, found from the `os.name` property by the first
 * constant, in declaration order, whose pattern occurs in the lower-cased
 * name. The property is a parameter here.
 */
module OperatingSystems {
  import opened Wrappers
  import Text

  datatype Os = Windows | Mac | FreeBsd | Linux

  /** The pattern each constant is declared with. */
  function Pattern(os: Os): string
  {
    match os
    case Windows => "win"
    case Mac => "mac"
    case FreeBsd => "freebsd"
    case Linux => "linux"
  }

  /** `values()`: the constants in declaration order. */
  const Values: seq<Os> := [Windows, Mac, FreeBsd, Linux]

  const BlankNameMessage: string := "Cannot determine os name because 'System.getProperty(\"os.name\")' is empty"
  const UnknownOsMessage: string := "Cannot determine current os"

  /** `filter(...).findFirst()`: the first of `oss` whose pattern occurs in `name`. */
  function FirstMatch(name: string, oss: seq<Os>): (r: Option<Os>)
    ensures r.Some? ==> r.value in oss && Text.Contains(name, Pattern(r.value))
    ensures r.Some? ==> forall j :: 0 <= j < Text.IndexOf(oss, r.value) ==> !Text.Contains(name, Pattern(oss[j]))
    ensures r.None? ==> forall os :: os in oss ==> !Text.Contains(name, Pattern(os))
  {
    if oss == [] then None
    else if Text.Contains(name, Pattern(oss[0])) then Some(oss[0])
    else
      var r := FirstMatch(name, oss[1..]);
      assert r.Some? ==> oss[0] != r.value && Text.IndexOf(oss, r.value) == 1 + Text.IndexOf(oss[1..], r.value);
      r
  }

  /** `initOs`: a missing or blank name fails, so does a name no pattern occurs in. */
  function InitOs(name: Option<string>): (r: Result<Os>)
    ensures name.None? || Text.IsBlank(name.value) ==> r == Err(IllegalState(BlankNameMessage))
    ensures r.Ok? ==> Text.Contains(Text.ToLower(name.value), Pattern(r.value))
    ensures r.Ok? ==> forall j :: 0 <= j < Text.IndexOf(Values, r.value) ==>
      !Text.Contains(Text.ToLower(name.value), Pattern(Values[j]))
    ensures name.Some? && !Text.IsBlank(name.value) && r.Err? ==>
      r.error == IllegalState(UnknownOsMessage)
      && forall os :: !Text.Contains(Text.ToLower(name.value), Pattern(os))
  {
    if name.None? || Text.IsBlank(name.value) then Err(IllegalState(BlankNameMessage))
    else
      var m := FirstMatch(Text.ToLower(name.value), Values);
      assert forall os: Os :: os in Values by {
        forall os: Os ensures os in Values {
          var k := match os case Windows => 0 case Mac => 1 case FreeBsd => 2 case Linux => 3;
          assert Values[k] == os;
        }
      }
      if m.None? then Err(IllegalState(UnknownOsMessage)) else Ok(m.value)
  }

  /** A text that contains a non-blank text is not blank. */
  lemma {:induction false} ContainsNotBlank(s: string, sub: string)
    requires Text.Contains(s, sub) && !Text.IsBlank(sub)
    ensures !Text.IsBlank(s)
    decreases |s|
  {
    if Text.StartsWith(s, sub) {
      var i :| 0 <= i < |sub| && !Text.IsWhitespace(sub[i]);
      assert s[i] == sub[i];
    } else {
      ContainsNotBlank(s[1..], sub);
      var i :| 0 <= i < |s[1..]| && !Text.IsWhitespace(s[1..][i]);
      assert s[i + 1] == s[1..][i];
    }
  }

  /** Lower-casing keeps whitespace where it is, so a name is blank exactly when its lower case is. */
  lemma LowerKeepsBlank(s: string)
    ensures Text.IsBlank(Text.ToLower(s)) <==> Text.IsBlank(s)
  {
    assert forall i :: 0 <= i < |s| ==> (Text.IsWhitespace(Text.ToLower(s)[i]) <==> Text.IsWhitespace(s[i]));
  }

  /** Any name containing "darwin" in any case is taken for Windows, since "darwin" contains "win". */
  lemma DarwinIsWindows(name: string)
    requires Text.Contains(Text.ToLower(name), "darwin")
    ensures InitOs(Some(name)) == Ok(Windows)
  {
    Text.ContainsInfix("dar", "win", "");
    assert "dar" + "win" + "" == "darwin";
    Text.ContainsTransitive(Text.ToLower(name), "darwin", "win");
    assert !Text.IsBlank("darwin") by {
      assert !Text.IsWhitespace("darwin"[0]);
    }
    ContainsNotBlank(Text.ToLower(name), "darwin");
    LowerKeepsBlank(name);
  }

  /** The classification ignores case: a name and its lower case give the same answer. */
  lemma CaseInsensitive(name: string)
    ensures InitOs(Some(name)) == InitOs(Some(Text.ToLower(name)))
  {
    LowerKeepsBlank(name);
    assert Text.ToLower(Text.ToLower(name)) == Text.ToLower(name);
  }

  /** `CURRENT`, the memoized `initOs` of this machine's `os.name`. */
  class CurrentOs {
    const osName: Option<string>
    var current: Option<Os>

    constructor (osName: Option<string>)
      ensures this.osName == osName && current == None && Valid()
    {
      this.osName := osName;
      current := None;
    }

    /** A remembered answer is the answer for this machine's name. */
    ghost predicate Valid()
      reads this
    {
      current.Some? ==> InitOs(osName) == Ok(current.value)
    }

    /** `current()`: computed on first success, then remembered. */
    method Current() returns (r: Result<Os>)
      requires Valid()
      modifies this
      ensures Valid() && r == InitOs(osName)
      ensures r.Ok? ==> current == Some(r.value)
    {
      if current.Some? {
        return Ok(current.value);
      }
      r := InitOs(osName);
      if r.Ok? {
        current := Some(r.value);
      }
    }

    /** `isCurrent()`: true exactly for the constant `current()` returns. */
    method IsCurrent(os: Os) returns (r: Result<bool>)
      requires Valid()
      modifies this
      ensures Valid()
      ensures InitOs(osName).Ok? ==> r == Ok(os == InitOs(osName).value)
      ensures InitOs(osName).Err? ==> r == Err(InitOs(osName).error)
    {
      var c := Current();
      if c.Err? {
        return Err(c.error);
      }
      r := Ok(os == c.value);
    }
  }
}
