/** The S3 storage-class analysis: buckets in GLACIER or STANDARD_IA, stale
    buckets and MIXED-storage buckets, their counts and shares, and three
    policy flags derived from the shares.
 */
module StorageClassUsage {
  import opened Wrappers
  import opened Values
  import opened Seqs
  import opened Checks

  const ThresholdKey := "s3_stale_bucket_date_threshold"
  const NotPerformed := "No S3 bucket analysis performed."

  /** `bucket.get(k)`: the field, or None when it is absent. */
  function Field(bucket: map<string, Value>, k: string): Value {
    if k in bucket then bucket[k] else Null
  }

  predicate GlacierOrIA(b: Value) {
    b.Obj? && Field(b.fields, "storage_class") in {Str("GLACIER"), Str("STANDARD_IA")}
  }

  predicate Mixed(b: Value) {
    b.Obj? && Field(b.fields, "storage_class") == Str("MIXED")
  }

  /** A truthy numeric `last_modified` strictly before the threshold. */
  predicate Stale(b: Value, threshold: int) {
    b.Obj? &&
    var lm := Field(b.fields, "last_modified");
    Truthy(lm) && IsNumber(lm) && NumberOf(lm) < threshold as real
  }

  /** A bucket the loop cannot get past: not a dict (no `.get`), or a truthy
      `last_modified` that cannot be ordered against a number. */
  predicate Raises(b: Value) {
    !b.Obj? || (Truthy(Field(b.fields, "last_modified")) && !IsNumber(Field(b.fields, "last_modified")))
  }

  datatype Categories = Categories(glacierOrIA: seq<Value>, stale: seq<Value>, mixed: seq<Value>)

  /** One iteration of the bucket loop: the three `if` tests in source order,
      the stale test short-circuiting on a falsy `last_modified`. */
  function Classify(b: Value, threshold: int): Result<(bool, bool, bool)> {
    var sc :- Get(b, "storage_class", Null);
    var lm :- Get(b, "last_modified", Null);
    var stale :- if Truthy(lm) then Less(lm, threshold) else Ok(false);
    Ok((sc == Str("GLACIER") || sc == Str("STANDARD_IA"), stale, sc == Str("MIXED")))
  }

  /** The bucket loop, appending each bucket to every list whose test it passes. */
  function Categorize(buckets: seq<Value>, threshold: int): (r: Result<Categories>)
    ensures r.Ok? ==> |r.value.glacierOrIA| <= |buckets| && |r.value.stale| <= |buckets|
                      && |r.value.mixed| <= |buckets|
  {
    if |buckets| == 0 then Ok(Categories([], [], []))
    else
      var c :- Classify(buckets[0], threshold);
      var rest :- Categorize(buckets[1..], threshold);
      Ok(Categories((if c.0 then [buckets[0]] else []) + rest.glacierOrIA,
                    (if c.1 then [buckets[0]] else []) + rest.stale,
                    (if c.2 then [buckets[0]] else []) + rest.mixed))
  }

  /** One iteration raises exactly on the buckets `Raises` names and
      otherwise answers the three tests. */
  lemma ClassifySpec(b: Value, threshold: int)
    ensures Classify(b, threshold).Ok? <==> !Raises(b)
    ensures Classify(b, threshold).Ok? ==> Classify(b, threshold).value == (GlacierOrIA(b), Stale(b, threshold), Mixed(b))
  {
  }

  /** The loop completes exactly when no bucket raises, and each list then
      holds exactly the buckets satisfying its predicate, in bucket order. */
  lemma {:induction false} CategorizeSpec(buckets: seq<Value>, threshold: int)
    ensures Categorize(buckets, threshold).Ok? <==> forall i | 0 <= i < |buckets| :: !Raises(buckets[i])
    ensures Categorize(buckets, threshold).Ok? ==>
              Categorize(buckets, threshold).value ==
              Categories(Filter(buckets, GlacierOrIA),
                         Filter(buckets, b => Stale(b, threshold)),
                         Filter(buckets, Mixed))
  {
    if |buckets| > 0 {
      var b := buckets[0];
      var tail := buckets[1..];
      CategorizeSpec(tail, threshold);
      ClassifySpec(b, threshold);
      assert forall i | 1 <= i < |buckets| :: buckets[i] == tail[i - 1];
      if Classify(b, threshold).Ok? && !Categorize(tail, threshold).Ok? {
        var j :| 0 <= j < |tail| && Raises(tail[j]);
        assert Raises(buckets[j + 1]);
      } else if Classify(b, threshold).Ok? {
        var rest := Categorize(tail, threshold).value;
        assert Categorize(buckets, threshold) ==
               Ok(Categories((if GlacierOrIA(b) then [b] else []) + rest.glacierOrIA,
                             (if Stale(b, threshold) then [b] else []) + rest.stale,
                             (if Mixed(b) then [b] else []) + rest.mixed));
      }
    }
  }

  /** What `format_data` computes, before it is laid out as a dict. */
  datatype Analysis = Analysis(total: nat, glacierOrIA: seq<Value>, stale: seq<Value>, mixed: seq<Value>) {
    function PercentGlacierOrIA(): Value { Percentage(|glacierOrIA|, total) }
    function PercentStale(): Value { Percentage(|stale|, total) }
    function PercentMixed(): Value { Percentage(|mixed|, total) }

    predicate AllowGlacierOrIA() { NumberOf(PercentGlacierOrIA()) >= 70.0 }
    predicate FlagStale() { NumberOf(PercentStale()) > 20.0 }
    predicate AllowNoMixed() { |mixed| == 0 }

    /** The dict `format_data` returns; it always has its keys, so it is
        truthy. */
    function ToValue(): (v: Value)
      ensures v.Obj? && "policy_checks" in v.fields && Truthy(v)
    {
      Obj(map[
        "total_buckets" := Int(total),
        "count_glacier_or_standard_ia" := Int(|glacierOrIA|),
        "count_stale" := Int(|stale|),
        "count_mixed" := Int(|mixed|),
        "percentage_glacier_or_standard_ia" := PercentGlacierOrIA(),
        "percentage_stale" := PercentStale(),
        "percentage_mixed" := PercentMixed(),
        "stale_buckets" := Arr(stale),
        "mixed_storage_buckets" := Arr(mixed),
        "glacier_or_standard_ia_buckets" := Arr(glacierOrIA),
        "policy_checks" := Obj(map[
          "allow_glacier_or_standard_ia" := Bool(AllowGlacierOrIA()),
          "flag_stale_buckets" := Bool(FlagStale()),
          "allow_no_mixed_storage" := Bool(AllowNoMixed())])])
    }
  }

  /** `format_data`: `details` is the incoming `Result.details`, `threshold`
      the configured stale date as a timestamp. A missing `buckets` key is an
      empty list; a dict's keys are strings, which have no `.get`. */
  function FormatData(details: Value, threshold: int): (r: Result<Analysis>)
    ensures r.Ok? ==> |r.value.glacierOrIA| <= r.value.total && |r.value.stale| <= r.value.total
                      && |r.value.mixed| <= r.value.total
  {
    var input :- Index(details, "input");
    var buckets :- Get(input, "buckets", Arr([]));
    var cats :- match Iterate(buckets)
                case Items(bs) => Categorize(bs, threshold)
                case Keys(ks) => if ks == {} then Ok(Categories([], [], [])) else Err(AttributeError)
                case NotIterable => Err(TypeError);
    var total :- Len(buckets);
    Ok(Analysis(total, cats.glacierOrIA, cats.stale, cats.mixed))
  }

  /** For a snapshot whose `buckets` is a list (or absent), `format_data`
      succeeds exactly when no bucket raises; the total is the number of
      buckets and each category is the filter of the buckets by its predicate. */
  lemma {:induction false} FormatDataSpec(details: Value, threshold: int, buckets: seq<Value>)
    requires details.Obj? && "input" in details.fields && details.fields["input"].Obj?
    requires var input := details.fields["input"].fields;
             if "buckets" in input then input["buckets"] == Arr(buckets) else buckets == []
    ensures FormatData(details, threshold).Ok? <==> forall i | 0 <= i < |buckets| :: !Raises(buckets[i])
    ensures FormatData(details, threshold).Ok? ==>
              FormatData(details, threshold).value ==
              Analysis(|buckets|, Filter(buckets, GlacierOrIA),
                       Filter(buckets, b => Stale(b, threshold)), Filter(buckets, Mixed))
  {
    var input := details.fields["input"];
    assert Get(input, "buckets", Arr([])) == Ok(Arr(buckets));
    assert Iterate(Arr(buckets)) == Items(buckets);
    assert Len(Arr(buckets)) == Ok(|buckets|);
    CategorizeSpec(buckets, threshold);
  }

  /** Each category is an order-preserving subsequence of the buckets holding
      exactly the buckets of that category; no bucket is both GLACIER/IA and
      MIXED. */
  lemma CategoriesSelectExactly(buckets: seq<Value>, threshold: int)
    ensures IsSubseq(Filter(buckets, GlacierOrIA), buckets)
    ensures IsSubseq(Filter(buckets, b => Stale(b, threshold)), buckets)
    ensures IsSubseq(Filter(buckets, Mixed), buckets)
    ensures forall b :: b in Filter(buckets, GlacierOrIA) <==> b in buckets && GlacierOrIA(b)
    ensures forall b :: b in Filter(buckets, Mixed) <==> b in buckets && Mixed(b)
    ensures forall b :: b in Filter(buckets, b => Stale(b, threshold)) <==> b in buckets && Stale(b, threshold)
    ensures forall b :: !(b in Filter(buckets, GlacierOrIA) && b in Filter(buckets, Mixed))
  {
    FilterIsSubseq(buckets, GlacierOrIA);
    FilterIsSubseq(buckets, b => Stale(b, threshold));
    FilterIsSubseq(buckets, Mixed);
    forall b ensures b in Filter(buckets, GlacierOrIA) <==> b in buckets && GlacierOrIA(b) {
      FilterMembers(buckets, GlacierOrIA, b);
    }
    forall b ensures b in Filter(buckets, Mixed) <==> b in buckets && Mixed(b) {
      FilterMembers(buckets, Mixed, b);
    }
    forall b ensures b in Filter(buckets, b => Stale(b, threshold)) <==> b in buckets && Stale(b, threshold) {
      FilterMembers(buckets, b => Stale(b, threshold), b);
    }
  }

  /** An absent, None or zero `last_modified` is never stale, and a bucket
      modified exactly at the threshold is not stale either. */
  lemma StaleNeedsTruthyEarlierDate(fields: map<string, Value>, threshold: int)
    ensures "last_modified" !in fields ==> !Stale(Obj(fields), threshold)
    ensures "last_modified" in fields && fields["last_modified"] in {Null, Int(0), Num(0.0), Bool(false)}
            ==> !Stale(Obj(fields), threshold)
    ensures "last_modified" in fields && fields["last_modified"] == Int(threshold) ==> !Stale(Obj(fields), threshold)
  {
  }

  /** The three policy flags in integer terms: at least 70% GLACIER/IA (never
      for an empty bucket list), strictly more than 20% stale, no MIXED bucket. */
  lemma PolicyFlags(a: Analysis)
    requires |a.glacierOrIA| <= a.total && |a.stale| <= a.total && |a.mixed| <= a.total
    ensures a.AllowGlacierOrIA() <==> a.total > 0 && 100 * |a.glacierOrIA| >= 70 * a.total
    ensures a.FlagStale() <==> 100 * |a.stale| > 20 * a.total
    ensures a.AllowNoMixed() <==> |a.mixed| == 0
  {
    if a.total > 0 {
      PercentageCompare(|a.glacierOrIA|, a.total, 70);
      PercentageCompare(|a.stale|, a.total, 20);
    }
  }

  /** Without a `buckets` key the analysis is empty and the flags come out as
      (false, false, true). */
  lemma MissingBucketsFlags(details: Value, threshold: int)
    requires details.Obj? && "input" in details.fields && details.fields["input"].Obj?
    requires "buckets" !in details.fields["input"].fields
    ensures FormatData(details, threshold).Ok?
    ensures var a := FormatData(details, threshold).value;
            a.total == 0 && !a.AllowGlacierOrIA() && !a.FlagStale() && a.AllowNoMixed()
  {
  }

  /** `report_findings`: the details are the analysis dict itself, which is
      always truthy, so the result always carries the found text and "No S3 bucket analysis performed." is
      never produced. */
  function ReportFindings(details: Value, threshold: int): (r: Result<Report<Value, Value>>)
    ensures r.Ok? <==> FormatData(details, threshold).Ok?
    ensures r.Ok? ==> FormatData(details, threshold).Ok? && r.value.details == FormatData(details, threshold).value.ToValue()
    ensures r.Ok? ==> r.value.formatted.Found? && r.value.details.Obj? && "policy_checks" in r.value.details.fields
  {
    var analysis :- FormatData(details, threshold);
    var findings := analysis.ToValue();
    Ok(if Truthy(findings) then Report(findings, Found(findings)) else Report(findings, Fallback(NotPerformed)))
  }

  /** `inject_data` writes the threshold timestamp and nothing else. */
  function InjectData(details: Value, threshold: int): (r: Result<Value>)
    ensures r.Ok? <==> HasInputDict(details)
    ensures r.Ok? ==> AddsOnly(details, r.value, "s3_stale_bucket_date_threshold", Int(threshold))
  {
    Inject(details, ThresholdKey, Int(threshold))
  }
}
