/** S3 objects still in STANDARD storage that were last modified before the
    configured date, with their share of all objects.
 */
module ObjectLastModified {
  import opened Wrappers
  import opened Values
  import opened Seqs
  import opened Checks

  const ThresholdKey := "s3_last_modified_date_threshold"
  const NoneFound := "No old S3 objects found."

  /** A dict whose `StorageClass` is exactly "STANDARD" and whose numeric
      `LastModified` lies strictly before the threshold. */
  predicate StandardAndOld(o: Value, threshold: int) {
    && HasKey(o, "StorageClass") && o.fields["StorageClass"] == Str("STANDARD")
    && HasKey(o, "LastModified") && IsNumber(o.fields["LastModified"])
    && NumberOf(o.fields["LastModified"]) < threshold as real
  }

  /** An object the comprehension cannot get past: not a dict, no
      `StorageClass`, or a STANDARD object whose `LastModified` is missing or
      not a number. `LastModified` of a non-STANDARD object is never read. */
  predicate Raises(o: Value) {
    || !HasKey(o, "StorageClass")
    || (o.fields["StorageClass"] == Str("STANDARD")
        && (!HasKey(o, "LastModified") || !IsNumber(o.fields["LastModified"])))
  }

  /** The comprehension's condition, `and` short-circuiting. */
  function IsStandardAndOld(o: Value, threshold: int): (r: Result<bool>)
    ensures r.Ok? <==> !Raises(o)
    ensures r.Ok? ==> (r.value <==> StandardAndOld(o, threshold))
  {
    var sc :- Index(o, "StorageClass");
    if sc == Str("STANDARD") then
      var lm :- Index(o, "LastModified");
      Less(lm, threshold)
    else Ok(false)
  }

  /** What `format_data` computes. */
  datatype Findings = Findings(selected: seq<Value>, total: nat) {
    function Share(): Value { Percentage(|selected|, total) }

    /** The dict `format_data` returns. */
    function ToValue(): (v: Value)
      ensures v.Obj? && v.fields.Keys == {"percentage_standard_and_old", "standard_and_old_objects", "total_objects"}
    {
      Obj(map["percentage_standard_and_old" := Share(),
              "standard_and_old_objects" := Arr(selected),
              "total_objects" := Int(total)])
    }
  }

  /** `format_data`: `objects` must be present; a dict or string of objects
      yields strings, which cannot be indexed by a string key. */
  function FormatData(details: Value, threshold: int): Result<Findings> {
    var input :- Index(details, "input");
    var objects :- Index(input, "objects");
    var total :- Len(objects);
    var selected :- match Iterate(objects)
                    case Items(xs) => TryFilter(xs, o => IsStandardAndOld(o, threshold))
                    case Keys(ks) => if ks == {} then Ok([]) else Err(TypeError)
                    case NotIterable => Err(TypeError);
    Ok(Findings(selected, total))
  }

  /** On a list of objects, `format_data` is the comprehension over it. */
  lemma FormatDataOfList(details: Value, threshold: int, objects: seq<Value>)
    requires details.Obj? && "input" in details.fields
    requires HasKey(details.fields["input"], "objects")
    requires details.fields["input"].fields["objects"] == Arr(objects)
    ensures var r := TryFilter(objects, o => IsStandardAndOld(o, threshold));
            FormatData(details, threshold) == if r.Ok? then Ok(Findings(r.value, |objects|)) else Err(r.error)
  {
    var input := details.fields["input"];
    assert Index(details, "input") == Ok(input);
    assert Index(input, "objects") == Ok(Arr(objects));
    assert Len(Arr(objects)) == Ok(|objects|);
    assert Iterate(Arr(objects)) == Items(objects);
  }

  /** For a list of objects, `format_data` succeeds exactly when no object
      raises; it then selects exactly the STANDARD objects older than the
      threshold, in order, counts all objects, and the share lies in [0, 100]. */
  lemma {:induction false} FormatDataSpec(details: Value, threshold: int, objects: seq<Value>)
    requires details.Obj? && "input" in details.fields
    requires HasKey(details.fields["input"], "objects")
    requires details.fields["input"].fields["objects"] == Arr(objects)
    ensures FormatData(details, threshold).Ok? <==> forall i | 0 <= i < |objects| :: !Raises(objects[i])
    ensures FormatData(details, threshold).Ok? ==>
              var f := FormatData(details, threshold).value;
              && f.selected == Filter(objects, o => StandardAndOld(o, threshold))
              && IsSubseq(f.selected, objects)
              && f.total == |objects|
              && 0.0 <= NumberOf(f.Share()) <= 100.0
              && (|objects| == 0 ==> f.Share() == Int(0))
  {
    var test := o => IsStandardAndOld(o, threshold);
    var spec := o => StandardAndOld(o, threshold);
    FormatDataOfList(details, threshold, objects);
    TryFilterSpec(objects, test);
    var r := TryFilter(objects, test);
    if r.Ok? {
      TryFilterSelects(objects, test, spec);
      FilterIsSubseq(objects, spec);
      var f := Findings(r.value, |objects|);
      assert FormatData(details, threshold) == Ok(f);
      assert |f.selected| <= f.total;
    } else {
      assert FormatData(details, threshold).Err?;
    }
  }

  /** The comparison is strict: an object modified exactly at the threshold is
      not selected, one a second earlier is. */
  lemma SelectionIsStrict(fields: map<string, Value>, threshold: int)
    requires "StorageClass" in fields && fields["StorageClass"] == Str("STANDARD")
    ensures StandardAndOld(Obj(fields["LastModified" := Int(threshold)]), threshold) == false
    ensures StandardAndOld(Obj(fields["LastModified" := Int(threshold - 1)]), threshold)
  {
  }

  /** An object that `report_findings` turns into `{Key: {"StorageClass": …}}`. */
  predicate Reportable(o: Value) {
    HasKey(o, "Key") && HasKey(o, "StorageClass")
  }

  function EntryOf(o: Value): Entry
    requires Reportable(o)
  {
    Entry(o.fields["Key"], map["StorageClass" := o.fields["StorageClass"]])
  }

  /** One iteration of the reshaping loop; anything else is only logged. */
  function ReshapeStep(o: Value): Result<Option<Entry>> {
    if Reportable(o) then
      var e :- MakeEntry(o.fields["Key"], map["StorageClass" := o.fields["StorageClass"]]);
      Ok(Some(e))
    else Ok(None)
  }

  /** `report_findings`: the findings dict has three keys, so it is always
      truthy and "No old S3 objects found." is never produced. The found text
      shows the reshaped entries and the share. */
  function ReportFindings(details: Value, threshold: int): (r: Result<Report<Value, (seq<Entry>, Value)>>)
    ensures r.Ok? ==> FormatData(details, threshold).Ok? && r.value.formatted.Found?
    ensures r.Ok? ==> FormatData(details, threshold).Ok? && r.value.details == FormatData(details, threshold).value.ToValue()
    ensures FormatData(details, threshold).Err? ==> r.Err?
  {
    var findings :- FormatData(details, threshold);
    var entries :- TryKeepMap(findings.selected, ReshapeStep);
    var value := findings.ToValue();
    Ok(if Truthy(value) then Report(value, Found((entries, findings.Share())))
       else Report(value, Fallback(NoneFound)))
  }

  /** Once the analysis succeeds, the report fails exactly when a reportable
      selected object has an unhashable `Key` (TypeError), and otherwise its
      entries are exactly the reportable selected objects, reshaped, in
      order; the others are dropped. */
  lemma {:induction false} ReportedEntries(details: Value, threshold: int)
    requires FormatData(details, threshold).Ok?
    ensures var sel := FormatData(details, threshold).value.selected;
            ReportFindings(details, threshold).Ok? <==>
              forall i | 0 <= i < |sel| :: Reportable(sel[i]) ==> Hashable(sel[i].fields["Key"])
    ensures var sel := FormatData(details, threshold).value.selected;
            ReportFindings(details, threshold).Ok? ==>
              ReportFindings(details, threshold).value.formatted.shown.0
                == MapSeq(Filter(sel, Reportable), o => if Reportable(o) then EntryOf(o) else Entry(Null, map[]))
  {
    var sel := FormatData(details, threshold).value.selected;
    var shape := o => if Reportable(o) then EntryOf(o) else Entry(Null, map[]);
    TryKeepMapOk(sel, ReshapeStep);
    if TryKeepMap(sel, ReshapeStep).Ok? {
      TryKeepMapGuarded(sel, ReshapeStep, Reportable, shape);
    }
  }

  /** `inject_data` writes the threshold timestamp and nothing else. */
  function InjectData(details: Value, threshold: int): (r: Result<Value>)
    ensures r.Ok? <==> HasInputDict(details)
    ensures r.Ok? ==> AddsOnly(details, r.value, "s3_last_modified_date_threshold", Int(threshold))
  {
    Inject(details, ThresholdKey, Int(threshold))
  }
}
