/** Load balancers none of whose targets is healthy: every health entry
    reports the state "unhealthy". */
module NoHealthyTargets {
  import opened Wrappers
  import opened Values
  import opened Seqs
  import opened Checks

  const NoneFound := "No ELBs found with no healthy targets."

  /** `d.get(upper, d.get(lower))`: the preferred key wins whenever it is
      present, whatever its value; the default is evaluated first, so a
      non-dict raises on it. */
  function Either(d: Value, upper: string, lower: string): (r: Result<Value>)
    ensures r.Ok? <==> d.Obj?
    ensures r.Ok? ==> r.value == if upper in d.fields then d.fields[upper]
                                 else if lower in d.fields then d.fields[lower] else Null
  {
    var fallback :- Get(d, lower, Null);
    Get(d, upper, fallback)
  }

  /** The health list of a load balancer, `InstanceHealth` before
      `instance_health`. */
  function Health(lb: Value): Value
    requires lb.Obj?
  {
    Either(lb, "InstanceHealth", "instance_health").value
  }

  /** The state of a health entry, `State` before `state`. */
  function State(x: Value): Value
    requires x.Obj?
  {
    Either(x, "State", "state").value
  }

  predicate Unhealthy(x: Value) {
    x.Obj? && State(x) == Str("unhealthy")
  }

  /** A load balancer whose health is a list of entries all reporting
      "unhealthy" (vacuously so for an empty list), or an empty string or
      dict, which the loop also sees as empty. */
  predicate Flagged(lb: Value) {
    lb.Obj? &&
    var h := Health(lb);
    || (h.Arr? && forall i | 0 <= i < |h.items| :: Unhealthy(h.items[i]))
    || h == Str("") || h == Obj(map[])
  }

  /** A load balancer the loop cannot get past: not a dict, no iterable
      health (None when both keys are missing), or a health entry without
      `.get`. */
  predicate Raises(lb: Value) {
    !lb.Obj? ||
    match Health(lb)
    case Arr(xs) => exists i | 0 <= i < |xs| :: !xs[i].Obj?
    case Str(s) => |s| > 0
    case Obj(m) => |m| > 0
    case _ => true
  }

  function IsUnhealthy(x: Value): (r: Result<bool>)
    ensures r.Ok? <==> x.Obj?
    ensures r.Ok? ==> (r.value <==> Unhealthy(x))
  {
    var state :- Either(x, "State", "state");
    Ok(state == Str("unhealthy"))
  }

  predicate All(bs: seq<bool>) {
    forall i | 0 <= i < |bs| :: bs[i]
  }

  /** One iteration of the loop: the whole list of comparisons is built
      before `all` looks at it. */
  function HasNoHealthy(lb: Value): Result<bool> {
    var health :- Either(lb, "InstanceHealth", "instance_health");
    var states :- match Iterate(health)
                  case Items(xs) => TryMap(xs, IsUnhealthy)
                  case Keys(ks) => if ks == {} then Ok([]) else Err(AttributeError)
                  case NotIterable => Err(TypeError);
    Ok(All(states))
  }

  /** The test raises exactly on the load balancers `Raises` names and
      otherwise answers `Flagged`. */
  lemma HasNoHealthySpec(lb: Value)
    ensures HasNoHealthy(lb).Ok? <==> !Raises(lb)
    ensures HasNoHealthy(lb).Ok? ==> (HasNoHealthy(lb).value <==> Flagged(lb))
  {
    if lb.Obj? {
      var h := Health(lb);
      match h
      case Arr(xs) =>
        assert Iterate(h) == Items(xs);
        TryMapSpec(xs, IsUnhealthy);
        if TryMap(xs, IsUnhealthy).Ok? {
          var bs := TryMap(xs, IsUnhealthy).value;
          assert All(bs) <==> forall i | 0 <= i < |xs| :: Unhealthy(xs[i]) by {
            assert forall i | 0 <= i < |xs| :: IsUnhealthy(xs[i]) == Ok(bs[i]);
          }
        }
      case Str(s) =>
        TryMapSpec(Chars(s), IsUnhealthy);
        if |s| > 0 {
          assert !Chars(s)[0].Obj?;
        }
      case _ =>
    }
  }

  /** An empty health list flags the load balancer: `all([])` is true. */
  lemma EmptyHealthFlagged(fields: map<string, Value>)
    requires "InstanceHealth" in fields && fields["InstanceHealth"] == Arr([])
    ensures HasNoHealthy(Obj(fields)) == Ok(true)
  {
    HasNoHealthySpec(Obj(fields));
  }

  /** An entry with neither `State` nor `state` is not unhealthy, so it
      keeps its load balancer out. */
  lemma StatelessEntryNotFlagged(lb: Value, i: nat)
    requires lb.Obj? && Health(lb).Arr? && i < |Health(lb).items|
    requires var x := Health(lb).items[i]; x.Obj? && "State" !in x.fields && "state" !in x.fields
    ensures !Flagged(lb)
  {
  }

  /** `format_data`: the flagged load balancers, in order. `details["input"]`
      is read with `.get`, so a missing one is None, which has no `.get`
      either. */
  function FormatData(details: Value): (r: Result<seq<Value>>)
    ensures r.Ok? ==> forall i | 0 <= i < |r.value| :: HasNoHealthy(r.value[i]) == Ok(true)
  {
    var input :- Get(details, "input", Null);
    var lbs :- Get(input, "elbs", Arr([]));
    match Iterate(lbs)
    case Items(xs) => TryFilter(xs, HasNoHealthy)
    case Keys(ks) => if ks == {} then Ok([]) else Err(AttributeError)
    case NotIterable => Err(TypeError)
  }

  /** For a list of load balancers (or none at all), the loop succeeds
      exactly when none raises, and it then keeps exactly the flagged ones,
      in order. */
  lemma {:induction false} FormatDataSpec(details: Value, lbs: seq<Value>)
    requires HasInputDict(details)
    requires var input := details.fields["input"].fields;
             if "elbs" in input then input["elbs"] == Arr(lbs) else lbs == []
    ensures FormatData(details).Ok? <==> forall i | 0 <= i < |lbs| :: !Raises(lbs[i])
    ensures FormatData(details).Ok? ==>
              && FormatData(details).value == Filter(lbs, Flagged)
              && IsSubseq(FormatData(details).value, lbs)
  {
    assert Get(details.fields["input"], "elbs", Arr([])) == Ok(Arr(lbs));
    assert Iterate(Arr(lbs)) == Items(lbs);
    assert FormatData(details) == TryFilter(lbs, HasNoHealthy);
    forall i | 0 <= i < |lbs| ensures HasNoHealthy(lbs[i]).Ok? <==> !Raises(lbs[i])
                               ensures HasNoHealthy(lbs[i]).Ok? ==> HasNoHealthy(lbs[i]).value == Flagged(lbs[i]) {
      HasNoHealthySpec(lbs[i]);
    }
    TryFilterSpec(lbs, HasNoHealthy);
    TryFilterSelects(lbs, HasNoHealthy, Flagged);
    FilterIsSubseq(lbs, Flagged);
  }

  /** `report_findings`: the flagged list is the details; when it is empty
      the details are a fresh empty list and the text is the fallback. */
  function ReportFindings(details: Value): (r: Result<Report<Value, Value>>)
    ensures r.Ok? <==> FormatData(details).Ok?
    ensures r.Ok? ==>
              var flagged := FormatData(details).value;
              && r.value.details == Arr(flagged)
              && (r.value.formatted.Fallback? <==> |flagged| == 0)
              && (r.value.formatted.Fallback? ==> r.value.formatted.message == NoneFound)
  {
    var findings :- FormatData(details);
    Ok(if Truthy(Arr(findings)) then Report(Arr(findings), Found(Arr(findings)))
       else Report(Arr([]), Fallback(NoneFound)))
  }
}
