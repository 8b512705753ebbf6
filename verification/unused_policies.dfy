/** IAM policies attached to fewer entities than the configured threshold. */
module UnusedPolicies {
  import opened Wrappers
  import opened Values
  import opened Seqs
  import opened Checks

  /** The configured `iam_unused_attachment_threshold` when none is given. */
  const DefaultThreshold := 0
  const ResultKey := "policy"
  const NoneFound := "No unused IAM policies found."

  /** A dict policy whose numeric `attachment_count` is strictly below the
      threshold. */
  predicate Unused(p: Value, threshold: int) {
    HasKey(p, "attachment_count") && IsNumber(p.fields["attachment_count"])
    && NumberOf(p.fields["attachment_count"]) < threshold as real
  }

  /** A policy the loop cannot get past: not a dict (no `.get`), or an
      `attachment_count` that is missing (None) or not a number. */
  predicate Raises(p: Value) {
    !p.Obj? || !IsNumber(if "attachment_count" in p.fields then p.fields["attachment_count"] else Null)
  }

  /** One iteration: `policy.get("attachment_count") < threshold`. */
  function IsUnused(p: Value, threshold: int): (r: Result<bool>)
    ensures r.Ok? <==> !Raises(p)
    ensures r.Ok? ==> (r.value <==> Unused(p, threshold))
  {
    var count :- Get(p, "attachment_count", Null);
    Less(count, threshold)
  }

  /** `format_result`: the unused policies, in order. A string or a
      non-empty dict of policies yields strings, which have no `.get`. */
  function FormatResult(details: Value, threshold: int): (r: Result<seq<Value>>)
    ensures r.Ok? ==> forall i | 0 <= i < |r.value| :: Unused(r.value[i], threshold)
  {
    var input :- Index(details, "input");
    var policies :- Index(input, "iam_policies");
    match Iterate(policies)
    case Items(xs) => TryFilter(xs, p => IsUnused(p, threshold))
    case Keys(ks) => if ks == {} then Ok([]) else Err(AttributeError)
    case NotIterable => Err(TypeError)
  }

  /** For a list of policies, the loop succeeds exactly when no policy
      raises; it then keeps exactly the unused policies, in order. */
  lemma {:induction false} FormatResultSpec(details: Value, threshold: int, policies: seq<Value>)
    requires HasInputDict(details)
    requires HasKey(details.fields["input"], "iam_policies")
    requires details.fields["input"].fields["iam_policies"] == Arr(policies)
    ensures FormatResult(details, threshold).Ok? <==> forall i | 0 <= i < |policies| :: !Raises(policies[i])
    ensures FormatResult(details, threshold).Ok? ==>
              && FormatResult(details, threshold).value == Filter(policies, p => Unused(p, threshold))
              && IsSubseq(FormatResult(details, threshold).value, policies)
  {
    var test := p => IsUnused(p, threshold);
    var unused := p => Unused(p, threshold);
    assert Iterate(Arr(policies)) == Items(policies);
    assert FormatResult(details, threshold) == TryFilter(policies, test);
    TryFilterSpec(policies, test);
    TryFilterSelects(policies, test, unused);
    FilterIsSubseq(policies, unused);
  }

  /** With a threshold of at most 0 (the default is 0) and no negative
      attachment count, no policy is ever reported. */
  lemma NothingBelowZero(details: Value, threshold: int, policies: seq<Value>)
    requires threshold <= DefaultThreshold
    requires HasInputDict(details)
    requires HasKey(details.fields["input"], "iam_policies")
    requires details.fields["input"].fields["iam_policies"] == Arr(policies)
    requires forall i | 0 <= i < |policies| ::
               HasKey(policies[i], "attachment_count") && IsNumber(policies[i].fields["attachment_count"])
               && NumberOf(policies[i].fields["attachment_count"]) >= 0.0
    ensures FormatResult(details, threshold) == Ok([])
  {
    FormatResultSpec(details, threshold, policies);
    FilterNone(policies, p => Unused(p, threshold));
  }

  /** `report_findings`. `format_result` always returns a list, so the dict
      branch and "Error: Invalid data format for details." are never taken;
      the details are the unused policies. */
  function ReportFindings(details: Value, threshold: int): (r: Result<Report<Value, Value>>)
    ensures r.Ok? <==> FormatResult(details, threshold).Ok?
    ensures r.Ok? ==>
              var selected := FormatResult(details, threshold).value;
              && r.value.details == Arr(selected)
              && r.value.formatted == if |selected| > 0 then Found(Arr(selected)) else Fallback(NoneFound)
  {
    var selected :- FormatResult(details, threshold);
    Ok(Dispatch(Arr(selected), ResultKey, NoneFound))
  }
}
