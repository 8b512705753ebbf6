/** EFS file systems with a high PercentIOLimit, reshaped into one entry per
    file system keyed by its id. */
module HighPercentIoLimit {
  import opened Wrappers
  import opened Values
  import opened Seqs
  import opened Checks

  const ThresholdKey := "efs_percent_io_limit_threshold"
  const NoneFound := "No EFSs with high percent IO limits found."

  /** A dict with `Name`, `Id` and `PercentIOLimit`; any other entry is only
      logged. */
  predicate Valid(efs: Value) {
    efs.Obj? && "Name" in efs.fields && "Id" in efs.fields && "PercentIOLimit" in efs.fields
  }

  /** `{Id: {"Id": …, "Name": …, "PercentIOLimit": …}}`. */
  function Shape(efs: Value): Entry {
    if Valid(efs) then
      Entry(efs.fields["Id"], map["Id" := efs.fields["Id"], "Name" := efs.fields["Name"],
                                  "PercentIOLimit" := efs.fields["PercentIOLimit"]])
    else Entry(Null, map[])
  }

  /** One iteration; only an unhashable `Id` can make it raise. */
  function Step(efs: Value): (r: Result<Option<Entry>>)
    ensures r.Err? <==> Valid(efs) && !Hashable(efs.fields["Id"])
    ensures r.Ok? ==> r.value == if Valid(efs) then Some(Shape(efs)) else None
  {
    if Valid(efs) then
      var e :- MakeEntry(Shape(efs).key, Shape(efs).fields);
      Ok(Some(e))
    else Ok(None)
  }

  /** `report_findings`. A falsy `details` gets "No EFSs with high percent
      IO limits found."; `findings is type(dict)` never holds, so a truthy
      one is iterated itself. A string or dict yields strings, which are all
      dropped; a true or non-zero number is not iterable. `details` is
      returned unchanged. */
  function ReportFindings(details: Value): (r: Result<Report<Value, seq<Entry>>>)
    ensures r.Ok? ==> r.value.details == details
    ensures r.Ok? ==> (r.value.formatted == Fallback(NoneFound) <==> !Truthy(details))
    ensures r.Err? ==> Truthy(details)
    ensures details.Obj? ==> r.Ok? && (r.value.formatted.Found? ==> r.value.formatted.shown == [])
  {
    if !Truthy(details) then Ok(Report(details, Fallback(NoneFound)))
    else
      var entries :- match Iterate(details)
                     case Items(xs) => TryKeepMap(xs, Step)
                     case Keys(_) => Ok([])
                     case NotIterable => Err(TypeError);
      Ok(Report(details, Found(entries)))
  }

  /** For a non-empty list, the report fails exactly when a valid entry has
      an unhashable `Id`, and otherwise shows the valid entries, reshaped, in
      order: never more entries than file systems. */
  lemma {:induction false} ReportedEntries(efss: seq<Value>)
    requires |efss| > 0
    ensures ReportFindings(Arr(efss)).Ok? <==>
              forall i | 0 <= i < |efss| :: Valid(efss[i]) ==> Hashable(efss[i].fields["Id"])
    ensures ReportFindings(Arr(efss)).Ok? ==>
              && ReportFindings(Arr(efss)).value.formatted == Found(MapSeq(Filter(efss, Valid), Shape))
              && |MapSeq(Filter(efss, Valid), Shape)| <= |efss|
  {
    assert Iterate(Arr(efss)) == Items(efss);
    TryKeepMapOk(efss, Step);
    if TryKeepMap(efss, Step).Ok? {
      TryKeepMapGuarded(efss, Step, Valid, Shape);
    }
  }

  /** A string of file systems is iterated character by character and every
      character is dropped. */
  lemma StringDetailsShowNothing(s: string)
    requires |s| > 0
    ensures ReportFindings(Str(s)) == Ok(Report(Str(s), Found([])))
  {
    var xs := Chars(s);
    assert forall i | 0 <= i < |xs| :: !Valid(xs[i]);
    TryKeepMapGuarded(xs, Step, Valid, Shape);
    FilterNone(xs, Valid);
  }

  /** `inject_data` writes the configured threshold and nothing else. */
  function InjectData(details: Value, threshold: int): (r: Result<Value>)
    ensures r.Ok? <==> HasInputDict(details)
    ensures r.Ok? ==> AddsOnly(details, r.value, "efs_percent_io_limit_threshold", Int(threshold))
  {
    Inject(details, ThresholdKey, Int(threshold))
  }
}
