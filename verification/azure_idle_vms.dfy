/** Idle Azure VMs, reshaped into one entry per VM keyed by its id, with
    defaults for the power state, the operating system and the tags. */
module AzureIdleVms {
  import opened Wrappers
  import opened Values
  import opened Seqs
  import opened Checks

  const ThresholdKey := "azure_vm_cpu_idle_threshold"
  const NoneFound := "No idle Azure VMs found."

  /** A VM the loop can reshape: a dict with a hashable `vm_id` and the
      three copied keys. */
  predicate Reshapeable(vm: Value) {
    && HasKey(vm, "vm_id") && Hashable(vm.fields["vm_id"])
    && HasKey(vm, "location") && HasKey(vm, "avg_cpu_utilization") && HasKey(vm, "vm_size")
  }

  /** The entry's inner dict: three fields copied verbatim, a missing power
      state shown as "running", a missing operating system as "N/A" and
      missing tags as `{}`. */
  function ReshapedFields(vm: Value): map<string, Value>
    requires Reshapeable(vm)
  {
    var f := vm.fields;
    map["location" := f["location"],
        "power_state" := if "power_state" in f then f["power_state"] else Str("running"),
        "avg_cpu_utilization" := f["avg_cpu_utilization"], "vm_size" := f["vm_size"],
        "operating_system" := if "operating_system" in f then f["operating_system"] else Str("N/A"),
        "tags" := if "tags" in f then f["tags"] else Obj(map[])]
  }

  /** The inner dict display, evaluated left to right. */
  function VmFields(vm: Value): Result<map<string, Value>> {
    var location :- Index(vm, "location");
    var power :- Get(vm, "power_state", Str("running"));
    var cpu :- Index(vm, "avg_cpu_utilization");
    var size :- Index(vm, "vm_size");
    var os :- Get(vm, "operating_system", Str("N/A"));
    var tags :- Get(vm, "tags", Obj(map[]));
    Ok(map["location" := location, "power_state" := power, "avg_cpu_utilization" := cpu,
           "vm_size" := size, "operating_system" := os, "tags" := tags])
  }

  /** One iteration: `vm_id` is read first and hashed last. A missing
      key raises KeyError, a non-dict TypeError. */
  function EntryOf(vm: Value): (r: Result<Entry>)
    ensures r.Ok? <==> Reshapeable(vm)
    ensures r.Ok? ==> Reshapeable(vm) && r.value == Entry(vm.fields["vm_id"], ReshapedFields(vm))
    ensures r.Err? && vm.Obj? ==> r.error == KeyError || r.error == TypeError
  {
    var id :- Index(vm, "vm_id");
    var fields :- VmFields(vm);
    MakeEntry(id, fields)
  }

  /** `report_findings`. The loop runs over `details` before the truth test,
      so None, a number or a boolean raises TypeError, and so does any
      string or non-empty dict (its elements are strings, which cannot be
      indexed by a key). `details` is returned unchanged, and an empty
      collection gets "No idle Azure VMs found.". */
  function ReportFindings(details: Value): (r: Result<Report<Value, seq<Entry>>>)
    ensures r.Ok? ==> r.value.details == details
    ensures r.Ok? ==> (r.value.formatted == Fallback(NoneFound) <==> !Truthy(details))
    ensures !details.Arr? && details != Str("") && details != Obj(map[]) ==> r == Err(TypeError)
  {
    var entries :- match Iterate(details)
                   case Items(xs) => TryMap(xs, EntryOf)
                   case Keys(ks) => if ks == {} then Ok([]) else Err(TypeError)
                   case NotIterable => Err(TypeError);
    Ok(Report(details, if Truthy(details) then Found(entries) else Fallback(NoneFound)))
  }

  /** For a list, the report succeeds exactly when every VM can be
      reshaped, and it then shows one entry per VM, in order. */
  lemma {:induction false} ReportedEntries(vms: seq<Value>)
    ensures ReportFindings(Arr(vms)).Ok? <==> forall i | 0 <= i < |vms| :: Reshapeable(vms[i])
    ensures ReportFindings(Arr(vms)).Ok? && |vms| > 0 ==>
              && ReportFindings(Arr(vms)).value.formatted.Found?
              && var shown := ReportFindings(Arr(vms)).value.formatted.shown;
                 && |shown| == |vms|
                 && forall i | 0 <= i < |vms| ::
                      Reshapeable(vms[i]) &&
                      shown[i] == Entry(vms[i].fields["vm_id"], ReshapedFields(vms[i]))
  {
    assert Iterate(Arr(vms)) == Items(vms);
    TryMapSpec(vms, EntryOf);
  }

  /** `inject_data` writes the configured threshold and nothing else. */
  function InjectData(details: Value, threshold: int): (r: Result<Value>)
    ensures r.Ok? <==> HasInputDict(details)
    ensures r.Ok? ==> AddsOnly(details, r.value, "azure_vm_cpu_idle_threshold", Int(threshold))
  {
    Inject(details, ThresholdKey, Int(threshold))
  }
}
