/** RDS instances whose CPU utilisation is below 5%. The configured
    `rds_cpu_idle_threshold` is written into the snapshot for the policy, but
    the report's own filter compares against the literal 5.
 */
module RdsIdle {
  import opened Wrappers
  import opened Values
  import opened Seqs
  import opened Checks

  const ThresholdKey := "rds_cpu_idle_threshold"
  /** The cut-off the report applies, whatever is configured. */
  const Cutoff := 5
  const InvalidFindings := "Error: Invalid data format for findings."
  const NoneFound := "No idle RDS instances found."

  /** `instance.get("CPUUtilization", 0)`. */
  function Cpu(instance: Value): Value
    requires instance.Obj?
  {
    if "CPUUtilization" in instance.fields then instance.fields["CPUUtilization"] else Int(0)
  }

  /** A dict instance whose CPU utilisation, 0 when absent, is below 5. */
  predicate Idle(instance: Value) {
    instance.Obj? && IsNumber(Cpu(instance)) && NumberOf(Cpu(instance)) < Cutoff as real
  }

  /** An instance the loop cannot get past: not a dict, a CPU utilisation
      that is not a number (an explicit None included), or an idle instance
      without `InstanceIdentifier`. */
  predicate Raises(instance: Value) {
    !instance.Obj? || !IsNumber(Cpu(instance))
    || (Idle(instance) && "InstanceIdentifier" !in instance.fields)
  }

  /** One iteration: the identifier named in the message of an idle instance. */
  function IdleStep(instance: Value): Result<Option<Value>> {
    var cpu :- Get(instance, "CPUUtilization", Int(0));
    var idle :- Less(cpu, Cutoff);
    if idle then
      var id :- Index(instance, "InstanceIdentifier");
      Ok(Some(id))
    else Ok(None)
  }

  /** The identifier an idle instance's message names. */
  function IdentifierOf(instance: Value): Value {
    if instance.Obj? && "InstanceIdentifier" in instance.fields then instance.fields["InstanceIdentifier"] else Null
  }

  /** The loop over a list: it succeeds exactly when no instance raises, and
      then names exactly the idle instances, one message each, in order. */
  lemma {:induction false} IdleMessages(instances: seq<Value>)
    ensures TryKeepMap(instances, IdleStep).Ok? <==> forall i | 0 <= i < |instances| :: !Raises(instances[i])
    ensures TryKeepMap(instances, IdleStep).Ok? ==>
              TryKeepMap(instances, IdleStep).value == MapSeq(Filter(instances, Idle), IdentifierOf)
  {
    forall i | 0 <= i < |instances| ensures IdleStep(instances[i]).Ok? <==> !Raises(instances[i]) {
      var x := instances[i];
      if x.Obj? {
        assert Get(x, "CPUUtilization", Int(0)) == Ok(Cpu(x));
      }
    }
    TryKeepMapOk(instances, IdleStep);
    if TryKeepMap(instances, IdleStep).Ok? {
      forall i | 0 <= i < |instances|
        ensures IdleStep(instances[i]) ==
                (if Idle(instances[i]) then Ok(Some(IdentifierOf(instances[i]))) else Ok(None))
      {
        var x := instances[i];
        assert Get(x, "CPUUtilization", Int(0)) == Ok(Cpu(x));
      }
      TryKeepMapGuarded(instances, IdleStep, Idle, IdentifierOf);
    }
  }

  /** The cut-off ignores the configuration: with any configured threshold
      an instance at 4% is idle and one at 5% is not. */
  lemma CutoffIsLiteral(fields: map<string, Value>)
    ensures Idle(Obj(fields["CPUUtilization" := Int(4)]))
    ensures !Idle(Obj(fields["CPUUtilization" := Int(5)]))
    ensures "CPUUtilization" !in fields ==> Idle(Obj(fields))
  {
  }

  /** `report_findings`: `details` is returned unchanged in every branch. A
      non-list is reported as malformed. A list is reported exactly when no
      instance raises; it gets the found text, one message per idle instance
      in list order, when some instance is idle, and "No idle RDS instances
      found." otherwise. */
  function ReportFindings(details: Value): (r: Result<Report<Value, seq<Value>>>)
    ensures r.Ok? ==> r.value.details == details
    ensures !details.Arr? ==> r == Ok(Report(details, Fallback(InvalidFindings)))
    ensures details.Arr? ==> (r.Ok? <==> forall i | 0 <= i < |details.items| :: !Raises(details.items[i]))
    ensures details.Arr? && r.Ok? ==>
              (r.value.formatted.Found? <==> exists i | 0 <= i < |details.items| :: Idle(details.items[i]))
    ensures details.Arr? && r.Ok? && r.value.formatted.Found? ==>
              r.value.formatted.shown == MapSeq(Filter(details.items, Idle), IdentifierOf)
    ensures details.Arr? && r.Ok? && r.value.formatted.Fallback? ==> r.value.formatted.message == NoneFound
  {
    match details
    case Arr(instances) =>
      IdleMessages(instances);
      var messages :- TryKeepMap(instances, IdleStep);
      FilterEmptyIff(instances, Idle);
      Ok(Report(details, if |messages| > 0 then Found(messages) else Fallback(NoneFound)))
    case _ => Ok(Report(details, Fallback(InvalidFindings)))
  }

  /** `inject_data` writes the configured threshold and nothing else. */
  function InjectData(details: Value, threshold: int): (r: Result<Value>)
    ensures r.Ok? <==> HasInputDict(details)
    ensures r.Ok? ==> AddsOnly(details, r.value, "rds_cpu_idle_threshold", Int(threshold))
  {
    Inject(details, ThresholdKey, Int(threshold))
  }
}
