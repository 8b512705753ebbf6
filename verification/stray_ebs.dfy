/** EBS volumes that are not attached ("in-use"), reshaped into one entry per
    volume keyed by its id. */
module StrayEbs {
  import opened Wrappers
  import opened Values
  import opened Seqs
  import opened Checks

  const NoneFound := "No stray EBS volumes found."

  /** A volume is stray unless its `state` is exactly "in-use". */
  predicate Stray(v: Value)
    requires HasKey(v, "state")
  {
    v.fields["state"] != Str("in-use")
  }

  /** The comprehension's condition; `volume["state"]` raises on a non-dict
      or a missing key. */
  function IsStray(v: Value): (r: Result<bool>)
    ensures r.Ok? <==> HasKey(v, "state")
    ensures r.Ok? ==> (r.value <==> Stray(v))
  {
    var state :- Index(v, "state");
    Ok(state != Str("in-use"))
  }

  /** `format_results`: the stray volumes, in order. A string or a non-empty
      dict of volumes yields strings, which cannot be indexed by a string key. */
  function FormatResults(details: Value): (r: Result<seq<Value>>)
    ensures r.Ok? ==> forall i | 0 <= i < |r.value| :: HasKey(r.value[i], "state") && Stray(r.value[i])
  {
    var input :- Index(details, "input");
    var volumes :- Index(input, "volumes");
    match Iterate(volumes)
    case Items(xs) => TryFilter(xs, IsStray)
    case Keys(ks) => if ks == {} then Ok([]) else Err(TypeError)
    case NotIterable => Err(TypeError)
  }

  /** For a list of volumes, the comprehension succeeds exactly when every
      volume is a dict with a `state`, and it then keeps exactly the stray
      ones, in order. */
  lemma {:induction false} FormatResultsSpec(details: Value, volumes: seq<Value>)
    requires HasInputDict(details)
    requires HasKey(details.fields["input"], "volumes")
    requires details.fields["input"].fields["volumes"] == Arr(volumes)
    ensures FormatResults(details).Ok? <==> forall i | 0 <= i < |volumes| :: HasKey(volumes[i], "state")
    ensures FormatResults(details).Ok? ==>
              && FormatResults(details).value == Filter(volumes, v => HasKey(v, "state") && Stray(v))
              && IsSubseq(FormatResults(details).value, volumes)
  {
    var stray := v => HasKey(v, "state") && Stray(v);
    assert Iterate(Arr(volumes)) == Items(volumes);
    assert FormatResults(details) == TryFilter(volumes, IsStray);
    TryFilterSpec(volumes, IsStray);
    TryFilterSelects(volumes, IsStray, stray);
    FilterIsSubseq(volumes, stray);
  }

  /** The decimal digits of a natural number, most significant first. */
  function Digits(n: nat): (r: string)
    ensures |r| >= 1
    ensures forall i | 0 <= i < |r| :: '0' <= r[i] <= '9'
    ensures n < 10 <==> |r| == 1
  {
    if n < 10 then [DigitChar(n)] else Digits(n / 10) + [DigitChar(n % 10)]
  }

  function DigitChar(d: nat): (c: char)
    requires d < 10
    ensures '0' <= c <= '9'
  {
    ['0', '1', '2', '3', '4', '5', '6', '7', '8', '9'][d]
  }

  function DigitValue(c: char): (d: nat)
    requires '0' <= c <= '9'
    ensures d < 10
  {
    if c == '0' then 0 else if c == '1' then 1 else if c == '2' then 2 else if c == '3' then 3
    else if c == '4' then 4 else if c == '5' then 5 else if c == '6' then 6 else if c == '7' then 7
    else if c == '8' then 8 else 9
  }

  /** The number a string of decimal digits spells. */
  function ValueOf(s: string): nat
    requires forall i | 0 <= i < |s| :: '0' <= s[i] <= '9'
  {
    if |s| == 0 then 0 else 10 * ValueOf(s[..|s| - 1]) + DigitValue(s[|s| - 1])
  }

  /** Reading the digits back gives the number; there is no leading zero
      except in "0" itself. */
  lemma {:induction false} DigitsRoundTrip(n: nat)
    ensures ValueOf(Digits(n)) == n
    ensures Digits(n)[0] == '0' ==> n == 0
  {
    if n >= 10 {
      DigitsRoundTrip(n / 10);
      var d := Digits(n / 10);
      var r := d + [DigitChar(n % 10)];
      assert r[..|r| - 1] == d;
      assert DigitValue(DigitChar(n % 10)) == n % 10;
      assert r[0] == d[0];
    } else {
      assert DigitValue(DigitChar(n)) == n;
    }
  }

  /** `str(v)` for a size value. Integers, strings, booleans and None are
      rendered as Python does; the text of a float, list or dict is the
      parameter `show`. */
  function Render(v: Value, show: Value -> string): string {
    match v
    case Int(i) => if i < 0 then "-" + Digits(-i) else Digits(i)
    case Str(s) => s
    case Bool(b) => if b then "True" else "False"
    case Null => "None"
    case _ => show(v)
  }

  /** `f"{size}MB"`. */
  function SizeLabel(size: Value, show: Value -> string): (r: string)
    ensures |r| >= 2 && r[|r| - 2..] == "MB"
  {
    Render(size, show) + "MB"
  }

  /** An integer size is labelled with its own decimal digits. */
  lemma SizeLabelOfInt(n: nat, show: Value -> string)
    ensures var text := SizeLabel(Int(n), show);
            && (forall i | 0 <= i < |text| - 2 :: '0' <= text[i] <= '9')
            && ValueOf(text[..|text| - 2]) == n
  {
    var text := SizeLabel(Int(n), show);
    assert text[..|text| - 2] == Digits(n);
    DigitsRoundTrip(n);
  }

  /** The fields one volume contributes, in the order the dict display
      evaluates them. */
  function VolumeFields(v: Value, show: Value -> string): Result<map<string, Value>> {
    var created :- Index(v, "create_time");
    var region :- Index(v, "region");
    var state :- Index(v, "state");
    var size :- Index(v, "size");
    var tags :- Index(v, "tags");
    Ok(map["create_time" := created, "region" := region, "state" := state,
           "size" := Str(SizeLabel(size, show)), "tags" := tags])
  }

  /** One iteration of the reshaping loop: `volume_id` is read first and
      hashed last. */
  function EntryOf(v: Value, show: Value -> string): Result<Entry> {
    var id :- Index(v, "volume_id");
    var fields :- VolumeFields(v, show);
    MakeEntry(id, fields)
  }

  /** A stray volume the loop can reshape. */
  predicate Reshapeable(v: Value) {
    && HasKey(v, "volume_id") && Hashable(v.fields["volume_id"])
    && HasKey(v, "create_time") && HasKey(v, "region") && HasKey(v, "state")
    && HasKey(v, "size") && HasKey(v, "tags")
  }

  /** The entry's inner dict: four fields copied, the size labelled. */
  function ReshapedFields(v: Value, show: Value -> string): map<string, Value>
    requires Reshapeable(v)
  {
    map["create_time" := v.fields["create_time"], "region" := v.fields["region"],
        "state" := v.fields["state"], "size" := Str(SizeLabel(v.fields["size"], show)),
        "tags" := v.fields["tags"]]
  }

  lemma EntryOfSpec(v: Value, show: Value -> string)
    ensures EntryOf(v, show).Ok? <==> Reshapeable(v)
    ensures EntryOf(v, show).Ok? ==> Reshapeable(v) && EntryOf(v, show).value == Entry(v.fields["volume_id"], ReshapedFields(v, show))
  {
  }

  /** `report_findings`: the details are the reshaped entries, and with no
      stray volume the text is "No stray EBS volumes found.". */
  function ReportFindings(details: Value, show: Value -> string): (r: Result<Report<seq<Entry>, seq<Entry>>>)
    ensures FormatResults(details).Err? ==> r.Err?
    ensures r.Ok? ==> |r.value.details| == |FormatResults(details).value|
    ensures r.Ok? ==> (r.value.formatted == Fallback(NoneFound) <==> |FormatResults(details).value| == 0)
  {
    var findings :- FormatResults(details);
    var volumes :- TryMap(findings, v => EntryOf(v, show));
    TryMapSpec(findings, v => EntryOf(v, show));
    Ok(Report(volumes, if |findings| > 0 then Found(volumes) else Fallback(NoneFound)))
  }

  /** The report succeeds exactly when every stray volume can be reshaped,
      and entry `i` is then the `i`-th stray volume, keyed by its id. */
  lemma {:induction false} ReportedEntries(details: Value, show: Value -> string)
    requires FormatResults(details).Ok?
    ensures var found := FormatResults(details).value;
            ReportFindings(details, show).Ok? <==> forall i | 0 <= i < |found| :: Reshapeable(found[i])
    ensures var found := FormatResults(details).value;
            ReportFindings(details, show).Ok? ==>
              forall i | 0 <= i < |found| ::
                && Reshapeable(found[i])
                && ReportFindings(details, show).value.details[i]
                     == Entry(found[i].fields["volume_id"], ReshapedFields(found[i], show))
  {
    var found := FormatResults(details).value;
    var f := v => EntryOf(v, show);
    TryMapSpec(found, f);
    forall i | 0 <= i < |found|
      ensures EntryOf(found[i], show).Ok? <==> Reshapeable(found[i])
      ensures EntryOf(found[i], show).Ok? ==> EntryOf(found[i], show).value == Entry(found[i].fields["volume_id"], ReshapedFields(found[i], show))
    {
      EntryOfSpec(found[i], show);
    }
  }
}
