/** IAM users whose credential-report row says MFA is not active. */
module MfaEnabled {
  import opened Wrappers
  import opened Values
  import opened Seqs
  import opened Checks
  import CredentialReport

  const ResultKey := "users_without_mfa"
  const NoneFound := "No IAM users found without MFA."

  /** A row whose `mfa_active` is exactly the string "false"; a missing
      field, "False" or "true" does not count. */
  predicate WithoutMfa(user: Value) {
    HasKey(user, "mfa_active") && user.fields["mfa_active"] == Str("false")
  }

  /** One iteration: `user.get("mfa_active") == "false"`, which raises only
      when the row is not a dict. */
  function IsWithoutMfa(user: Value): (r: Result<bool>)
    ensures r.Ok? <==> user.Obj?
    ensures r.Ok? ==> (r.value <==> WithoutMfa(user))
  {
    var active :- Get(user, "mfa_active", Null);
    Ok(active == Str("false"))
  }

  /** `format_result`: the users without MFA, in row order. A string or a
      non-empty dict of rows yields strings, which have no `.get`. */
  function FormatResult(details: Value): (r: Result<seq<Value>>)
    ensures r.Ok? ==> forall i | 0 <= i < |r.value| :: WithoutMfa(r.value[i])
  {
    var input :- Index(details, "input");
    var report :- Index(input, "credential_report");
    match Iterate(report)
    case Items(xs) => TryFilter(xs, IsWithoutMfa)
    case Keys(ks) => if ks == {} then Ok([]) else Err(AttributeError)
    case NotIterable => Err(TypeError)
  }

  /** The dict `format_result` returns: exactly one key. */
  function FindingsValue(users: seq<Value>): (v: Value)
    ensures v.Obj? && v.fields.Keys == {ResultKey} && v.fields[ResultKey] == Arr(users)
  {
    Obj(map[ResultKey := Arr(users)])
  }

  /** For a list of rows, the loop succeeds exactly when every row is a dict,
      and it then keeps exactly the rows without MFA, in order. */
  lemma {:induction false} FormatResultSpec(details: Value, rows: seq<Value>)
    requires HasInputDict(details)
    requires HasKey(details.fields["input"], "credential_report")
    requires details.fields["input"].fields["credential_report"] == Arr(rows)
    ensures FormatResult(details).Ok? <==> forall i | 0 <= i < |rows| :: rows[i].Obj?
    ensures FormatResult(details).Ok? ==>
              && FormatResult(details).value == Filter(rows, WithoutMfa)
              && IsSubseq(FormatResult(details).value, rows)
  {
    assert Iterate(Arr(rows)) == Items(rows);
    assert FormatResult(details) == TryFilter(rows, IsWithoutMfa);
    TryFilterSpec(rows, IsWithoutMfa);
    TryFilterSelects(rows, IsWithoutMfa, WithoutMfa);
    FilterIsSubseq(rows, WithoutMfa);
  }

  /** The rows the IAM provider reads out of a credential report are all
      dicts, so this check never fails on them: whatever else `details` and
      its snapshot hold, a `credential_report` taken from the provider is
      filtered without raising. */
  lemma {:induction false} ProviderRowsAccepted(top: map<string, Value>, input: map<string, Value>, content: string)
    ensures var details := Obj(top["input" := Obj(input["credential_report" := Arr(CredentialReport.Rows(content))])]);
            FormatResult(details) == Ok(Filter(CredentialReport.Rows(content), WithoutMfa))
  {
    var details := Obj(top["input" := Obj(input["credential_report" := Arr(CredentialReport.Rows(content))])]);
    FormatResultSpec(details, CredentialReport.Rows(content));
  }

  /** `report_findings`. `format_result` always returns a dict, so the list
      branch and "Error: Invalid data format for details." are never taken;
      the details are that dict. */
  function ReportFindings(details: Value): (r: Result<Report<Value, Value>>)
    ensures r.Ok? <==> FormatResult(details).Ok?
    ensures r.Ok? ==>
              var users := FormatResult(details).value;
              && r.value.details == FindingsValue(users)
              && r.value.formatted == if |users| > 0 then Found(Arr(users)) else Fallback(NoneFound)
  {
    var users :- FormatResult(details);
    Ok(Dispatch(FindingsValue(users), ResultKey, NoneFound))
  }
}
