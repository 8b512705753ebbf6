/** Idle EC2 instances, reshaped into one entry per instance keyed by its
    id, with defaults for the operating system and the tags. */
module Ec2IdleInstances {
  import opened Wrappers
  import opened Values
  import opened Seqs
  import opened Checks

  const ThresholdKey := "ec2_cpu_idle_threshold"
  const NoneFound := "No idle EC2 instances found."

  /** An instance the loop can reshape: a dict with a hashable `instance_id`
      and the four copied keys. */
  predicate Reshapeable(instance: Value) {
    && HasKey(instance, "instance_id") && Hashable(instance.fields["instance_id"])
    && HasKey(instance, "region") && HasKey(instance, "state")
    && HasKey(instance, "avg_cpu_utilization") && HasKey(instance, "instance_type")
  }

  /** The entry's inner dict: four fields copied verbatim, a missing
      operating system shown as "N/A" and missing tags as `{}`. */
  function ReshapedFields(instance: Value): map<string, Value>
    requires Reshapeable(instance)
  {
    var f := instance.fields;
    map["region" := f["region"], "state" := f["state"],
        "avg_cpu_utilization" := f["avg_cpu_utilization"], "instance_type" := f["instance_type"],
        "operating_system" := if "operating_system" in f then f["operating_system"] else Str("N/A"),
        "tags" := if "tags" in f then f["tags"] else Obj(map[])]
  }

  /** The inner dict display, evaluated left to right: the four copied
      keys are subscripted, the last two read with defaults. */
  function InstanceFields(instance: Value): Result<map<string, Value>> {
    var region :- Index(instance, "region");
    var state :- Index(instance, "state");
    var cpu :- Index(instance, "avg_cpu_utilization");
    var kind :- Index(instance, "instance_type");
    var os :- Get(instance, "operating_system", Str("N/A"));
    var tags :- Get(instance, "tags", Obj(map[]));
    Ok(map["region" := region, "state" := state, "avg_cpu_utilization" := cpu,
           "instance_type" := kind, "operating_system" := os, "tags" := tags])
  }

  /** One iteration: `instance_id` is read first and hashed last. A missing
      key raises KeyError, a non-dict TypeError. */
  function EntryOf(instance: Value): (r: Result<Entry>)
    ensures r.Ok? <==> Reshapeable(instance)
    ensures r.Ok? ==> Reshapeable(instance) &&
                      r.value == Entry(instance.fields["instance_id"], ReshapedFields(instance))
    ensures r.Err? && instance.Obj? ==> r.error == KeyError || r.error == TypeError
  {
    var id :- Index(instance, "instance_id");
    var fields :- InstanceFields(instance);
    MakeEntry(id, fields)
  }

  /** `report_findings`. The loop runs over `details` before the truth test,
      so None, a number or a boolean raises TypeError, and so does any
      string or non-empty dict (its elements are strings, which cannot be
      indexed by a key). `details` is returned unchanged, and an empty
      collection gets "No idle EC2 instances found.". */
  function ReportFindings(details: Value): (r: Result<Report<Value, seq<Entry>>>)
    ensures r.Ok? ==> r.value.details == details
    ensures r.Ok? ==> (r.value.formatted == Fallback(NoneFound) <==> !Truthy(details))
    ensures !details.Arr? && details != Str("") && details != Obj(map[]) ==> r == Err(TypeError)
  {
    var entries :- match Iterate(details)
                   case Items(xs) => TryMap(xs, EntryOf)
                   case Keys(ks) => if ks == {} then Ok([]) else Err(TypeError)
                   case NotIterable => Err(TypeError);
    Ok(Report(details, if Truthy(details) then Found(entries) else Fallback(NoneFound)))
  }

  /** For a list, the report succeeds exactly when every instance can be
      reshaped, and it then shows one entry per instance, in order. */
  lemma {:induction false} ReportedEntries(instances: seq<Value>)
    ensures ReportFindings(Arr(instances)).Ok? <==> forall i | 0 <= i < |instances| :: Reshapeable(instances[i])
    ensures ReportFindings(Arr(instances)).Ok? && |instances| > 0 ==>
              && ReportFindings(Arr(instances)).value.formatted.Found?
              && var shown := ReportFindings(Arr(instances)).value.formatted.shown;
                 && |shown| == |instances|
                 && forall i | 0 <= i < |instances| ::
                      Reshapeable(instances[i]) &&
                      shown[i] == Entry(instances[i].fields["instance_id"], ReshapedFields(instances[i]))
  {
    assert Iterate(Arr(instances)) == Items(instances);
    TryMapSpec(instances, EntryOf);
  }

  /** `inject_data` writes the configured threshold and nothing else. */
  function InjectData(details: Value, threshold: int): (r: Result<Value>)
    ensures r.Ok? <==> HasInputDict(details)
    ensures r.Ok? ==> AddsOnly(details, r.value, "ec2_cpu_idle_threshold", Int(threshold))
  {
    Inject(details, ThresholdKey, Int(threshold))
  }
}
