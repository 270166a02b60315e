/**
 * Reading the parameters of a sketch configuration out of its name
 * (usecases/plot-scripts/coverage-vs-cost-mixed-failures.py): a name
 * such as "pod_k10_l5_eta01_t3" is a '_'-separated list of fields, each
 * a parameter name followed by its value, and the plot legend is the
 * name without its last field.
 */
module PlotParams {
  import opened Common

  /** The first position where `sub` occurs in `s`, if any. */
  function FirstOccurrence(s: string, sub: string): (r: Option<nat>)
    ensures r.Some? ==> r.value <= |s| && StartsWith(s[r.value..], sub)
    ensures r.Some? ==> forall j :: 0 <= j < r.value ==> !StartsWith(s[j..], sub)
    ensures r.None? ==> forall j :: 0 <= j <= |s| ==> !StartsWith(s[j..], sub)
    decreases |s|
  {
    if StartsWith(s, sub) then Some(0)
    else if |s| == 0 then None
    else
      var rest := FirstOccurrence(s[1..], sub);
      assert forall j :: 1 <= j <= |s| ==> s[j..] == s[1..][j - 1..];
      if rest.None? then None else Some(rest.value + 1)
  }

  /** The text of `s` before the first occurrence of `sub` (all of it when
      there is none): piece 1 of str.split(sub) once `sub` has been cut
      off the front. */
  function UpTo(s: string, sub: string): (r: string)
    requires |sub| > 0
    ensures |r| <= |s| && r == s[..|r|]
    ensures !Contains(r, sub)
    ensures !Contains(s, sub) ==> r == s
  {
    match FirstOccurrence(s, sub)
    case None =>
      s
    case Some(i) =>
      assert StartsWith(s[i..], sub);
      NoOccurrenceBefore(s, sub, i);
      s[..i]
  }

  /** Text before the first occurrence does not contain it. */
  lemma {:induction false} NoOccurrenceBefore(s: string, sub: string, i: nat)
    requires |sub| > 0 && i <= |s|
    requires forall j :: 0 <= j < i ==> !StartsWith(s[j..], sub)
    ensures !Contains(s[..i], sub)
  {
    forall j | 0 <= j <= i
      ensures !StartsWith(s[..i][j..], sub)
    {
      if j < i && |sub| <= i - j {
        assert !StartsWith(s[j..], sub);
        assert s[..i][j..][..|sub|] == s[j..][..|sub|];
      }
    }
  }

  /** The value after `param` in the first field (from the left) that starts
      with it. */
  function FirstParam(fields: seq<string>, param: string): (r: Option<string>)
    requires |param| > 0
  {
    if |fields| == 0 then None
    else if StartsWith(fields[0], param) then Some(UpTo(fields[0][|param|..], param))
    else FirstParam(fields[1..], param)
  }

  /** extract_param_from_file_name. */
  function ExtractParam(name: string, param: string): Option<string>
    requires |param| > 0
  {
    FirstParam(Split(name, '_'), param)
  }

  /** None exactly when no field starts with the parameter; otherwise the
      first such field gives the value, later ones are ignored, and the
      value stops where the parameter's name recurs. */
  lemma {:induction false} FirstParamMeaning(fields: seq<string>, param: string)
    requires |param| > 0
    ensures FirstParam(fields, param).None? <==> forall i :: 0 <= i < |fields| ==> !StartsWith(fields[i], param)
    ensures FirstParam(fields, param).Some? ==>
      exists i :: 0 <= i < |fields| && StartsWith(fields[i], param) &&
        (forall j :: 0 <= j < i ==> !StartsWith(fields[j], param)) &&
        FirstParam(fields, param).value == UpTo(fields[i][|param|..], param)
  {
    if |fields| > 0 && !StartsWith(fields[0], param) {
      FirstParamMeaning(fields[1..], param);
      assert forall i :: 1 <= i < |fields| ==> fields[i] == fields[1..][i - 1];
      if FirstParam(fields, param).Some? {
        var i :| 0 <= i < |fields[1..]| && StartsWith(fields[1..][i], param) &&
          (forall j :: 0 <= j < i ==> !StartsWith(fields[1..][j], param)) &&
          FirstParam(fields[1..], param).value == UpTo(fields[1..][i][|param|..], param);
        assert fields[i + 1] == fields[1..][i];
      }
    }
  }

  /** A name written field by field gives back the value written after
      the parameter, when no earlier field starts with the parameter and
      the value does not contain it. */
  lemma {:induction false} ExtractWritten(before: seq<string>, param: string, value: string, after: seq<string>)
    requires |param| > 0 && '_' !in param && '_' !in value && !Contains(value, param)
    requires forall i :: 0 <= i < |before| ==> '_' !in before[i] && !StartsWith(before[i], param)
    requires forall i :: 0 <= i < |after| ==> '_' !in after[i]
    ensures ExtractParam(Join(before + [param + value] + after, "_"), param) == Some(value)
  {
    var fields := before + [param + value] + after;
    assert forall i :: 0 <= i < |fields| ==> '_' !in fields[i] by {
      forall i | 0 <= i < |fields|
        ensures '_' !in fields[i]
      {
        if i < |before| {
          assert fields[i] == before[i];
        } else if i > |before| {
          assert fields[i] == after[i - |before| - 1];
        }
      }
    }
    SplitJoin(fields, '_');
    FirstParamMeaning(fields, param);
    var k := |before|;
    assert StartsWith(fields[k], param);
    var i :| 0 <= i < |fields| && StartsWith(fields[i], param) &&
      (forall j :: 0 <= j < i ==> !StartsWith(fields[j], param)) &&
      FirstParam(fields, param).value == UpTo(fields[i][|param|..], param);
    assert i == k;
    assert fields[k][|param|..] == value;
  }

  /** The legend: the name without its last '_'-field. */
  function Legend(name: string): string
  {
    var fields := Split(name, '_');
    Join(fields[..|fields| - 1], "_")
  }

  /** Dropping the last field of a name written field by field gives the
      name of the other fields. */
  lemma {:induction false} LegendOfWritten(fields: seq<string>, last: string)
    requires '_' !in last && forall i :: 0 <= i < |fields| ==> '_' !in fields[i]
    ensures Legend(Join(fields + [last], "_")) == Join(fields, "_")
  {
    var all := fields + [last];
    assert forall i :: 0 <= i < |all| ==> '_' !in all[i] by {
      forall i | 0 <= i < |all|
        ensures '_' !in all[i]
      {
        if i < |fields| {
          assert all[i] == fields[i];
        }
      }
    }
    SplitJoin(all, '_');
    assert all[..|all| - 1] == fields;
  }
}
