/** EC2 snapshots whose `start_time` lies before the configured date. */
module Ec2OldSnapshots {
  import opened Wrappers
  import opened Values
  import opened Seqs
  import opened Checks

  const ResultKey := "ec2_old_snapshots"
  const NoneFound := "No old EC2 snapshots found."

  /** A snapshot whose `start_time` is a string the ISO 8601 parser `parse`
      accepts, at an instant strictly before the threshold. */
  predicate Old(s: Value, threshold: int, parse: string -> Option<int>) {
    && HasKey(s, "start_time") && s.fields["start_time"].Str?
    && parse(s.fields["start_time"].s).Some?
    && parse(s.fields["start_time"].s).value < threshold
  }

  /** A snapshot the comprehension cannot get past: not a dict, no
      `start_time`, a non-string one, or one the parser rejects. */
  predicate Raises(s: Value, parse: string -> Option<int>) {
    || !HasKey(s, "start_time") || !s.fields["start_time"].Str?
    || parse(s.fields["start_time"].s).None?
  }

  /** The comprehension's condition: `snapshot["start_time"]` raises on a
      non-dict or a missing key, `fromisoformat` raises TypeError on a
      non-string and ValueError on a malformed one. */
  function StartedBefore(s: Value, threshold: int, parse: string -> Option<int>): (r: Result<bool>)
    ensures r.Ok? <==> !Raises(s, parse)
    ensures r.Ok? ==> (r.value <==> Old(s, threshold, parse))
  {
    var start :- Index(s, "start_time");
    var text :- if start.Str? then Ok(start.s) else Err(TypeError);
    var instant :- match parse(text)
                   case Some(t) => Ok(t)
                   case None => Err(ValueError);
    Ok(instant < threshold)
  }

  /** `filter_snapshots`: the old snapshots, in order. A string or a
      non-empty dict of snapshots yields strings, which cannot be indexed by a
      string key. */
  function FilterSnapshots(details: Value, threshold: int, parse: string -> Option<int>): (r: Result<seq<Value>>)
    ensures r.Ok? ==> forall i | 0 <= i < |r.value| :: Old(r.value[i], threshold, parse)
  {
    var input :- Index(details, "input");
    var snapshots :- Index(input, "snapshots");
    match Iterate(snapshots)
    case Items(xs) => TryFilter(xs, s => StartedBefore(s, threshold, parse))
    case Keys(ks) => if ks == {} then Ok([]) else Err(TypeError)
    case NotIterable => Err(TypeError)
  }

  /** The dict `filter_snapshots` returns: exactly one key, so never empty. */
  function FindingsValue(selected: seq<Value>): (v: Value)
    ensures v.Obj? && v.fields.Keys == {ResultKey} && v.fields[ResultKey] == Arr(selected)
    ensures Truthy(v)
  {
    Obj(map[ResultKey := Arr(selected)])
  }

  /** For a list of snapshots, the filter succeeds exactly when no snapshot
      raises; it then keeps exactly the old snapshots, in order. */
  lemma {:induction false} FilterSnapshotsSpec(details: Value, threshold: int, parse: string -> Option<int>, snapshots: seq<Value>)
    requires HasInputDict(details)
    requires HasKey(details.fields["input"], "snapshots")
    requires details.fields["input"].fields["snapshots"] == Arr(snapshots)
    ensures FilterSnapshots(details, threshold, parse).Ok? <==>
              forall i | 0 <= i < |snapshots| :: !Raises(snapshots[i], parse)
    ensures FilterSnapshots(details, threshold, parse).Ok? ==>
              && FilterSnapshots(details, threshold, parse).value == Filter(snapshots, s => Old(s, threshold, parse))
              && IsSubseq(FilterSnapshots(details, threshold, parse).value, snapshots)
  {
    var test := s => StartedBefore(s, threshold, parse);
    var isOld := s => Old(s, threshold, parse);
    assert Iterate(Arr(snapshots)) == Items(snapshots);
    assert FilterSnapshots(details, threshold, parse) == TryFilter(snapshots, test);
    TryFilterSpec(snapshots, test);
    TryFilterSelects(snapshots, test, isOld);
    FilterIsSubseq(snapshots, isOld);
  }

  /** The comparison is strict: a snapshot started exactly at the threshold
      is not old. */
  lemma OldIsStrict(fields: map<string, Value>, text: string, threshold: int, parse: string -> Option<int>)
    requires parse(text) == Some(threshold)
    ensures !Old(Obj(fields["start_time" := Str(text)]), threshold, parse)
    ensures Old(Obj(fields["start_time" := Str(text)]), threshold + 1, parse)
  {
  }

  /** One report line, `Snapshot: {snapshot_id} is older than a year.
      Created on: {start_time}`, kept as the two values shown. */
  datatype Line = Line(identifier: Value, started: Value)

  function LineOf(s: Value): Result<Line> {
    var id :- Index(s, "snapshot_id");
    var started :- Index(s, "start_time");
    Ok(Line(id, started))
  }

  /** `report_findings`: the findings dict always has its one key, so the
      found text is always produced and "No old EC2 snapshots found." never
      is. An old snapshot without `snapshot_id` raises KeyError. */
  function ReportFindings(details: Value, threshold: int, parse: string -> Option<int>): (r: Result<Report<Value, seq<Line>>>)
    ensures FilterSnapshots(details, threshold, parse).Err? ==> r.Err?
    ensures r.Ok? ==> r.value.formatted.Found?
    ensures r.Ok? ==> r.value.details == FindingsValue(FilterSnapshots(details, threshold, parse).value)
  {
    var selected :- FilterSnapshots(details, threshold, parse);
    var findings := FindingsValue(selected);
    var lines :- if Truthy(findings) then TryMap(selected, LineOf) else Ok([]);
    Ok(if Truthy(findings) then Report(findings, Found(lines)) else Report(findings, Fallback(NoneFound)))
  }

  /** One line per old snapshot, naming its `snapshot_id` and start time, in
      order; the report fails exactly when some old snapshot has no
      `snapshot_id`. */
  lemma {:induction false} ReportedLines(details: Value, threshold: int, parse: string -> Option<int>)
    requires FilterSnapshots(details, threshold, parse).Ok?
    ensures var selected := FilterSnapshots(details, threshold, parse).value;
            ReportFindings(details, threshold, parse).Ok? <==>
              forall i | 0 <= i < |selected| :: HasKey(selected[i], "snapshot_id")
    ensures var selected := FilterSnapshots(details, threshold, parse).value;
            ReportFindings(details, threshold, parse).Ok? ==>
              var lines := ReportFindings(details, threshold, parse).value.formatted.shown;
              && |lines| == |selected|
              && forall i | 0 <= i < |selected| ::
                   lines[i] == Line(selected[i].fields["snapshot_id"], selected[i].fields["start_time"])
  {
    var selected := FilterSnapshots(details, threshold, parse).value;
    TryMapSpec(selected, LineOf);
    assert forall i | 0 <= i < |selected| :: HasKey(selected[i], "start_time");
  }
}
