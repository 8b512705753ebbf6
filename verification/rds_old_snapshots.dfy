/** RDS snapshots created before the configured date. The provider hands the
    snapshots over as a list of per-region lists, which the check flattens
    before filtering.
 */
module RdsOldSnapshots {
  import opened Wrappers
  import opened Values
  import opened Seqs
  import opened Checks

  const ThresholdKey := "rds_old_date_threshold"
  const ResultKey := "rds_old_snapshots"
  const NoneFound := "No old RDS snapshots found."

  /** What the inner `for snapshot in sublist` loop appends for one sublist.
      A dict sublist appends its keys; the model keeps how many there are but
      not their text or order, standing each in as an empty string, which like
      every string has no `.get` and so fails the same way later on. */
  function Visit(sublist: Value): (r: Result<seq<Value>>)
    ensures r.Ok? <==> !Iterate(sublist).NotIterable?
    ensures sublist.Arr? ==> r == Ok(sublist.items)
  {
    match Iterate(sublist)
    case Items(xs) => Ok(xs)
    case Keys(ks) => Ok(seq(|ks|, _ => Str("")))
    case NotIterable => Err(TypeError)
  }

  /** The nested flattening loop over a list of sublists. */
  function FlattenSnapshots(sublists: seq<Value>): Result<seq<Value>> {
    if |sublists| == 0 then Ok([])
    else
      var first :- Visit(sublists[0]);
      var rest :- FlattenSnapshots(sublists[1..]);
      Ok(first + rest)
  }

  /** On a list of lists the loop is concatenation, in order, and the length
      is the sum of the sublist lengths. */
  lemma {:induction false} FlattenOfLists(xss: seq<seq<Value>>)
    ensures FlattenSnapshots(MapSeq(xss, xs => Arr(xs))) == Ok(Flatten(xss))
    ensures |Flatten(xss)| == SumLengths(xss)
  {
    FlattenLength(xss);
    if |xss| > 0 {
      var subs := MapSeq(xss, xs => Arr(xs));
      assert subs[1..] == MapSeq(xss[1..], xs => Arr(xs));
      FlattenOfLists(xss[1..]);
      assert Visit(subs[0]) == Ok(xss[0]);
    }
  }

  /** The loop fails exactly when some sublist cannot be iterated. */
  lemma {:induction false} FlattenSnapshotsOk(sublists: seq<Value>)
    ensures FlattenSnapshots(sublists).Ok? <==> forall i | 0 <= i < |sublists| :: !Iterate(sublists[i]).NotIterable?
  {
    if |sublists| > 0 {
      FlattenSnapshotsOk(sublists[1..]);
      if Visit(sublists[0]).Ok? && !FlattenSnapshots(sublists[1..]).Ok? {
        var j :| 0 <= j < |sublists[1..]| && Iterate(sublists[1..][j]).NotIterable?;
        assert sublists[1..][j] == sublists[j + 1];
      } else if Visit(sublists[0]).Ok? {
        forall i | 1 <= i < |sublists| ensures !Iterate(sublists[i]).NotIterable? {
          assert sublists[i] == sublists[1..][i - 1];
        }
      }
    }
  }

  /** `datetime.fromisoformat(s.replace('Z', '+00:00')).timestamp()`: the
      ISO 8601 parser and the clock conversion are the parameter `parse`,
      which returns None where `fromisoformat` raises ValueError. */
  function CreatedAt(text: string, parse: string -> Option<int>): Option<int> {
    parse(ReplaceAll(text, 'Z', "+00:00"))
  }

  /** A snapshot whose creation time is a parseable string strictly before
      the threshold. */
  predicate Old(s: Value, threshold: int, parse: string -> Option<int>) {
    && HasKey(s, "SnapshotCreateTime") && s.fields["SnapshotCreateTime"].Str?
    && CreatedAt(s.fields["SnapshotCreateTime"].s, parse).Some?
    && CreatedAt(s.fields["SnapshotCreateTime"].s, parse).value < threshold
  }

  /** A snapshot the filter loop cannot get past: not a dict (no `.get`), no
      string creation time (None has no `.replace`), or one the parser rejects. */
  predicate Raises(s: Value, parse: string -> Option<int>) {
    || !HasKey(s, "SnapshotCreateTime") || !s.fields["SnapshotCreateTime"].Str?
    || CreatedAt(s.fields["SnapshotCreateTime"].s, parse).None?
  }

  /** One iteration of the filter loop. */
  function CreatedBefore(s: Value, threshold: int, parse: string -> Option<int>): (r: Result<bool>)
    ensures r.Ok? <==> !Raises(s, parse)
    ensures r.Ok? ==> (r.value <==> Old(s, threshold, parse))
  {
    var created :- Get(s, "SnapshotCreateTime", Null);
    var text :- if created.Str? then Ok(created.s) else Err(AttributeError);
    var instant :- match CreatedAt(text, parse)
                   case Some(t) => Ok(t)
                   case None => Err(ValueError);
    Ok(instant < threshold)
  }

  /** `find_old_rds_snapshots`: the old snapshots, in flattened order. A
      missing `rds_snapshots` is an empty list. A dict of sublists visits its
      keys, strings whose one-character pieces have no `.get`: only a dict
      with no key but the empty string gets through. */
  function FindOld(details: Value, threshold: int, parse: string -> Option<int>): (r: Result<seq<Value>>)
    ensures r.Ok? ==> forall i | 0 <= i < |r.value| :: Old(r.value[i], threshold, parse)
  {
    var input :- Index(details, "input");
    var outer :- Get(input, "rds_snapshots", Arr([]));
    var flat :- match Iterate(outer)
                case Items(subs) => FlattenSnapshots(subs)
                case Keys(ks) => if ks <= {""} then Ok([]) else Err(AttributeError)
                case NotIterable => Err(TypeError);
    TryFilter(flat, s => CreatedBefore(s, threshold, parse))
  }

  /** The dict `find_old_rds_snapshots` returns: exactly one key, so never
      empty. */
  function FindingsValue(aged: seq<Value>): (v: Value)
    ensures v.Obj? && v.fields.Keys == {ResultKey} && v.fields[ResultKey] == Arr(aged)
    ensures Truthy(v)
  {
    Obj(map[ResultKey := Arr(aged)])
  }

  /** For snapshots given as a list of lists (or absent), the lookup succeeds
      exactly when no flattened snapshot raises, and it then keeps exactly the
      old snapshots, as a subsequence of the flattened list. */
  lemma {:induction false} FindOldSpec(details: Value, threshold: int, parse: string -> Option<int>, xss: seq<seq<Value>>)
    requires HasInputDict(details)
    requires var input := details.fields["input"].fields;
             if "rds_snapshots" in input then input["rds_snapshots"] == Arr(MapSeq(xss, xs => Arr(xs))) else xss == []
    ensures var flat := Flatten(xss);
            FindOld(details, threshold, parse).Ok? <==> forall i | 0 <= i < |flat| :: !Raises(flat[i], parse)
    ensures FindOld(details, threshold, parse).Ok? ==>
              && FindOld(details, threshold, parse).value == Filter(Flatten(xss), s => Old(s, threshold, parse))
              && IsSubseq(FindOld(details, threshold, parse).value, Flatten(xss))
  {
    var input := details.fields["input"];
    var subs := MapSeq(xss, xs => Arr(xs));
    assert Get(input, "rds_snapshots", Arr([])) == Ok(Arr(subs));
    assert Iterate(Arr(subs)) == Items(subs);
    FlattenOfLists(xss);
    var flat := Flatten(xss);
    var test := s => CreatedBefore(s, threshold, parse);
    var isOld := s => Old(s, threshold, parse);
    assert FindOld(details, threshold, parse) == TryFilter(flat, test);
    TryFilterSpec(flat, test);
    TryFilterSelects(flat, test, isOld);
    FilterIsSubseq(flat, isOld);
  }

  /** The `rds_snapshots` dict case: only keys that are all empty strings get
      through, and then nothing is old. */
  lemma DictOfSublists(details: Value, threshold: int, parse: string -> Option<int>, m: map<string, Value>)
    requires HasInputDict(details)
    requires var input := details.fields["input"].fields;
             "rds_snapshots" in input && input["rds_snapshots"] == Obj(m)
    ensures FindOld(details, threshold, parse).Ok? <==> m.Keys <= {""}
    ensures FindOld(details, threshold, parse).Ok? ==> FindOld(details, threshold, parse).value == []
  {
    assert Get(details.fields["input"], "rds_snapshots", Arr([])) == Ok(Obj(m));
  }

  /** The creation time is compared strictly: a snapshot created exactly at
      the threshold is not old. A creation time without 'Z' reaches the parser
      unchanged. */
  lemma OldIsStrict(fields: map<string, Value>, text: string, threshold: int, parse: string -> Option<int>)
    requires 'Z' !in text && parse(text) == Some(threshold)
    ensures !Old(Obj(fields["SnapshotCreateTime" := Str(text)]), threshold, parse)
    ensures Old(Obj(fields["SnapshotCreateTime" := Str(text)]), threshold + 1, parse)
  {
    ReplaceAllLength(text, 'Z', "+00:00");
  }

  /** One line of the report: `Snapshot: {SnapshotIdentifier} is older than a
      year. Created on: {SnapshotCreateTime}`, kept as the two values shown. */
  datatype Line = Line(identifier: Value, created: Value)

  function LineOf(s: Value): Result<Line> {
    var id :- Index(s, "SnapshotIdentifier");
    var created :- Index(s, "SnapshotCreateTime");
    Ok(Line(id, created))
  }

  /** `report_findings`: the findings dict always has its one key, so the
      found text is always produced and "No old RDS snapshots found." never
      is. An old snapshot without `SnapshotIdentifier` raises KeyError. */
  function ReportFindings(details: Value, threshold: int, parse: string -> Option<int>): (r: Result<Report<Value, seq<Line>>>)
    ensures FindOld(details, threshold, parse).Err? ==> r.Err?
    ensures r.Ok? ==> r.value.formatted.Found?
    ensures r.Ok? ==> r.value.details == FindingsValue(FindOld(details, threshold, parse).value)
  {
    var aged :- FindOld(details, threshold, parse);
    var findings := FindingsValue(aged);
    var lines :- if Truthy(findings) then TryMap(aged, LineOf) else Ok([]);
    Ok(if Truthy(findings) then Report(findings, Found(lines)) else Report(findings, Fallback(NoneFound)))
  }

  /** One line per old snapshot, naming its identifier and creation time, in
      order; the report fails exactly when some old snapshot has no
      identifier. */
  lemma {:induction false} ReportedLines(details: Value, threshold: int, parse: string -> Option<int>)
    requires FindOld(details, threshold, parse).Ok?
    ensures var aged := FindOld(details, threshold, parse).value;
            ReportFindings(details, threshold, parse).Ok? <==>
              forall i | 0 <= i < |aged| :: HasKey(aged[i], "SnapshotIdentifier")
    ensures var aged := FindOld(details, threshold, parse).value;
            ReportFindings(details, threshold, parse).Ok? ==>
              var lines := ReportFindings(details, threshold, parse).value.formatted.shown;
              && |lines| == |aged|
              && forall i | 0 <= i < |aged| ::
                   lines[i] == Line(aged[i].fields["SnapshotIdentifier"], aged[i].fields["SnapshotCreateTime"])
  {
    var aged := FindOld(details, threshold, parse).value;
    TryMapSpec(aged, LineOf);
    assert forall i | 0 <= i < |aged| :: HasKey(aged[i], "SnapshotCreateTime");
  }

  /** `inject_data` writes the threshold as integer nanoseconds (`nanos`, the
      float product `timestamp() * 1e9` truncated) and nothing else. */
  function InjectData(details: Value, nanos: int): (r: Result<Value>)
    ensures r.Ok? <==> HasInputDict(details)
    ensures r.Ok? ==> AddsOnly(details, r.value, "rds_old_date_threshold", Int(nanos))
  {
    Inject(details, ThresholdKey, Int(nanos))
  }
}
