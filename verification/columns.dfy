/** Choice of the NAV column of the loaded table: `nav_v5` when present,
    otherwise the first column whose lower-cased name contains "nav". */
module Columns {
  import opened Results

  /** Name of the column the metrics are computed on. */
  const NavColumn: string := "nav_v5"

  /** Lower-case form of an ASCII letter; other characters are unchanged. */
  function ToLower(c: char): char {
    if 'A' <= c <= 'Z' then (c as int + 32) as char else c
  }

  /** `name.lower()` contains "nav" starting at index `i`. */
  predicate NavAt(name: string, i: int)
    requires 0 <= i
  {
    i + 3 <= |name| && ToLower(name[i]) == 'n' && ToLower(name[i + 1]) == 'a' && ToLower(name[i + 2]) == 'v'
  }

  /** `'nav' in name.lower()`. */
  predicate MentionsNav(name: string) {
    exists i :: 0 <= i < |name| && NavAt(name, i)
  }

  /** Index of the first column that mentions "nav", if any. */
  function FirstNavColumn(cols: seq<string>): (k: Option<nat>)
    ensures k.Some? ==> k.value < |cols| && MentionsNav(cols[k.value])
    ensures k.Some? ==> forall j :: 0 <= j < k.value ==> !MentionsNav(cols[j])
    ensures k.None? <==> forall j :: 0 <= j < |cols| ==> !MentionsNav(cols[j])
  {
    if |cols| == 0 then None
    else if MentionsNav(cols[0]) then Some(0)
    else
      match FirstNavColumn(cols[1..])
      case None => None
      case Some(k) => Some(k + 1)
  }

  /** The column whose values become `nav_v5`: `nav_v5` itself when the
      table has it, else the first column mentioning "nav"; with neither,
      the dashboard stops. */
  function ResolveNavColumn(cols: seq<string>): (r: Result<string>)
    ensures NavColumn in cols ==> r == Success(NavColumn)
    ensures NavColumn !in cols ==>
              (r.Failure? <==> forall j :: 0 <= j < |cols| ==> !MentionsNav(cols[j]))
    ensures NavColumn !in cols && r.Success? ==>
              exists k :: 0 <= k < |cols| && cols[k] == r.value && MentionsNav(r.value)
                          && forall j :: 0 <= j < k ==> !MentionsNav(cols[j])
    ensures r.Failure? ==> r.error == NoNavColumn
  {
    if NavColumn in cols then Success(NavColumn)
    else
      match FirstNavColumn(cols)
      case None => Failure(NoNavColumn)
      case Some(k) => Success(cols[k])
  }

  /** Whichever column is chosen, its name mentions "nav". */
  lemma ResolvedColumnMentionsNav(cols: seq<string>)
    ensures ResolveNavColumn(cols).Success? ==> MentionsNav(ResolveNavColumn(cols).value)
  {
    assert NavAt(NavColumn, 0);
  }
}
