/** Load balancers with a high error rate, reshaped into one entry per load
    balancer keyed by its name. Entries come in two spellings, lower-case
    (`name`, `type`, `error_rate`) and capitalised (`Name`, `Type`,
    `ErrorRate`).
 */
module HighErrorRate {
  import opened Wrappers
  import opened Values
  import opened Seqs
  import opened Checks

  const ThresholdKey := "elb_error_rate_threshold"
  const NoneFound := "No ELBs with high error rates found."

  predicate HasAll(lb: Value, a: string, b: string, c: string) {
    lb.Obj? && a in lb.fields && b in lb.fields && c in lb.fields
  }

  predicate LowerValid(lb: Value) { HasAll(lb, "name", "type", "error_rate") }
  predicate UpperValid(lb: Value) { HasAll(lb, "Name", "Type", "ErrorRate") }

  /** An entry the loop reshapes; the others are only logged. */
  predicate Valid(lb: Value) { LowerValid(lb) || UpperValid(lb) }

  /** The reshaped entry, always with lower-case inner keys; the lower-case
      spelling wins when both are complete. */
  function Shape(lb: Value): (e: Entry)
    ensures LowerValid(lb) ==> e == Entry(lb.fields["name"], map["type" := lb.fields["type"], "error_rate" := lb.fields["error_rate"]])
    ensures !LowerValid(lb) && UpperValid(lb) ==>
              e == Entry(lb.fields["Name"], map["type" := lb.fields["Type"], "error_rate" := lb.fields["ErrorRate"]])
  {
    if LowerValid(lb) then Entry(lb.fields["name"], map["type" := lb.fields["type"], "error_rate" := lb.fields["error_rate"]])
    else if UpperValid(lb) then Entry(lb.fields["Name"], map["type" := lb.fields["Type"], "error_rate" := lb.fields["ErrorRate"]])
    else Entry(Null, map[])
  }

  /** An invalid dict entry that binds the local `name`: its `name`, or else
      its `Name`, is present and not None. */
  predicate Named(lb: Value) {
    lb.Obj? &&
    (("name" in lb.fields && lb.fields["name"] != Null) || ("Name" in lb.fields && lb.fields["Name"] != Null))
  }

  /** One iteration. `bound` says whether an earlier invalid entry already
      bound `name`, which stays bound for the rest of the loop; an invalid
      entry that binds nothing reads an unbound `name` (NameError) unless one
      did. A non-dict fails on `.get`, and an unhashable name fails when the
      entry's dict is built. */
  function Step(lb: Value, bound: bool): Result<(Option<Entry>, bool)> {
    if LowerValid(lb) || UpperValid(lb) then
      var e :- MakeEntry(Shape(lb).key, Shape(lb).fields);
      Ok((Some(e), bound))
    else
      var lower :- Get(lb, "name", Null);
      var upper :- Get(lb, "Name", Null);
      if lower != Null || upper != Null || bound then Ok((None, true)) else Err(NameError)
  }

  /** The loop over the load balancers. */
  function Reshape(lbs: seq<Value>, bound: bool): Result<seq<Entry>> {
    if |lbs| == 0 then Ok([])
    else
      var (e, bound') :- Step(lbs[0], bound);
      var rest :- Reshape(lbs[1..], bound');
      Ok(if e.Some? then [e.value] + rest else rest)
  }

  /** Entry `i` can be reached: it is a dict, its name is hashable if it is
      valid, and if it is invalid without a name then `name` was bound
      before it. */
  predicate Passes(lbs: seq<Value>, i: nat, bound: bool)
    requires i < |lbs|
  {
    && lbs[i].Obj?
    && (Valid(lbs[i]) ==> Hashable(Shape(lbs[i]).key))
    && (!Valid(lbs[i]) && !Named(lbs[i]) ==>
          bound || exists j | 0 <= j < i :: !Valid(lbs[j]) && Named(lbs[j]))
  }

  /** An entry that passes takes one step without raising, and `name` is
      bound after it when it was before or the entry is invalid. */
  lemma StepPasses(lb: Value, bound: bool)
    requires lb.Obj? && (Valid(lb) ==> Hashable(Shape(lb).key)) && (!Valid(lb) && !Named(lb) ==> bound)
    ensures Step(lb, bound) == Ok((if Valid(lb) then Some(Shape(lb)) else None, bound || !Valid(lb)))
  {
  }

  /** The entries after the first still pass once the first has run. */
  lemma PassesTail(lbs: seq<Value>, bound: bool, bound': bool)
    requires |lbs| > 0 && forall i | 0 <= i < |lbs| :: Passes(lbs, i, bound)
    requires bound' == (bound || !Valid(lbs[0]))
    ensures forall i | 0 <= i < |lbs| - 1 :: Passes(lbs[1..], i, bound')
  {
    forall i | 0 <= i < |lbs| - 1 ensures Passes(lbs[1..], i, bound') {
      assert Passes(lbs, i + 1, bound);
      assert lbs[1..][i] == lbs[i + 1];
      if !Valid(lbs[i + 1]) && !Named(lbs[i + 1]) && !bound' {
        var j :| 0 <= j < i + 1 && !Valid(lbs[j]) && Named(lbs[j]);
        assert lbs[1..][j - 1] == lbs[j];
      }
    }
  }

  /** When every entry passes, the loop yields the valid entries, reshaped,
      in order: at most one entry per load balancer. */
  lemma {:induction false} ReshapeValid(lbs: seq<Value>, bound: bool)
    requires forall i | 0 <= i < |lbs| :: Passes(lbs, i, bound)
    ensures Reshape(lbs, bound) == Ok(MapSeq(Filter(lbs, Valid), Shape))
    ensures |MapSeq(Filter(lbs, Valid), Shape)| <= |lbs|
  {
    if |lbs| > 0 {
      var bound' := bound || !Valid(lbs[0]);
      PassesTail(lbs, bound, bound');
      ReshapeValid(lbs[1..], bound');
      assert Passes(lbs, 0, bound);
      ReshapeStep(lbs, bound, bound');
    }
  }

  /** The inductive step: a passing first entry contributes its reshaped
      entry when it is valid and nothing otherwise. */
  lemma ReshapeStep(lbs: seq<Value>, bound: bool, bound': bool)
    requires |lbs| > 0 && Passes(lbs, 0, bound) && bound' == (bound || !Valid(lbs[0]))
    requires Reshape(lbs[1..], bound') == Ok(MapSeq(Filter(lbs[1..], Valid), Shape))
    ensures Reshape(lbs, bound) == Ok(MapSeq(Filter(lbs, Valid), Shape))
  {
    var lb := lbs[0];
    var rest := Filter(lbs[1..], Valid);
    var shaped := MapSeq(rest, Shape);
    StepPasses(lb, bound);
    if Valid(lb) {
      ReshapeCons(lbs, bound, Some(Shape(lb)), bound', shaped);
      assert Filter(lbs, Valid) == [lb] + rest;
      assert MapSeq([lb], Shape) == [Shape(lb)];
      MapSeqAppend([lb], rest, Shape);
    } else {
      ReshapeCons(lbs, bound, None, bound', shaped);
      assert Filter(lbs, Valid) == rest;
    }
  }

  /** One unfolding of the loop. */
  lemma ReshapeCons(lbs: seq<Value>, bound: bool, e: Option<Entry>, bound': bool, rest: seq<Entry>)
    requires |lbs| > 0 && Step(lbs[0], bound) == Ok((e, bound'))
    requires Reshape(lbs[1..], bound') == Ok(rest)
    ensures Reshape(lbs, bound) == Ok(if e.Some? then [e.value] + rest else rest)
  {
  }

  /** An entry of the rest that passes once the first entry has run also
      passes in the whole list: an earlier binding of `name` is either the
      first entry or one of the rest. */
  lemma PassesHead(lbs: seq<Value>, bound: bool, bound': bool, i: nat)
    requires 0 < i < |lbs| && Passes(lbs, 0, bound) && bound' == (bound || !Valid(lbs[0]))
    requires Passes(lbs[1..], i - 1, bound')
    ensures Passes(lbs, i, bound)
  {
  }

  /** The loop succeeds exactly when every entry passes: a dict entry that
      is not a dict fails on `.get`, a valid entry with an unhashable name
      fails when its dict is built, and an unnamed invalid entry with no
      earlier binding of `name` raises NameError. */
  lemma {:induction false} ReshapeOk(lbs: seq<Value>, bound: bool)
    ensures Reshape(lbs, bound).Ok? <==> forall i | 0 <= i < |lbs| :: Passes(lbs, i, bound)
  {
    if forall i | 0 <= i < |lbs| :: Passes(lbs, i, bound) {
      ReshapeValid(lbs, bound);
    } else if |lbs| > 0 {
      if Passes(lbs, 0, bound) {
        var bound' := bound || !Valid(lbs[0]);
        StepPasses(lbs[0], bound);
        var k :| 0 <= k < |lbs| && !Passes(lbs, k, bound);
        if Passes(lbs[1..], k - 1, bound') {
          PassesHead(lbs, bound, bound', k);
        }
        ReshapeOk(lbs[1..], bound');
      }
    }
  }

  /** The first invalid entry that binds no name raises NameError, when all
      entries before it are valid and can be reshaped. */
  lemma {:induction false} UnboundName(lbs: seq<Value>, k: nat)
    requires k < |lbs| && lbs[k].Obj? && !Valid(lbs[k]) && !Named(lbs[k])
    requires forall i | 0 <= i < k :: Valid(lbs[i]) && Hashable(Shape(lbs[i]).key)
    ensures Reshape(lbs, false) == Err(NameError)
  {
    if k > 0 {
      assert Step(lbs[0], false) == Ok((Some(Shape(lbs[0])), false));
      assert forall i | 0 <= i < k - 1 :: lbs[1..][i] == lbs[i + 1];
      UnboundName(lbs[1..], k - 1);
    }
  }

  /** `report_findings`. A falsy `details` gets "No ELBs with high error
      rates found."; `findings is type(dict)` never holds, so a truthy one is
      iterated itself. A non-empty dict visits its keys, strings with no
      `.get`; a true or non-zero number is not iterable. `details` is
      returned unchanged. */
  function ReportFindings(details: Value): (r: Result<Report<Value, seq<Entry>>>)
    ensures r.Ok? ==> r.value.details == details
    ensures r.Ok? ==> (r.value.formatted == Fallback(NoneFound) <==> !Truthy(details))
    ensures details.Obj? && Truthy(details) ==> r == Err(AttributeError)
  {
    if !Truthy(details) then Ok(Report(details, Fallback(NoneFound)))
    else
      var lbs :- match Iterate(details)
                 case Items(xs) => Ok(xs)
                 case Keys(_) => Err(AttributeError)
                 case NotIterable => Err(TypeError);
      var entries :- Reshape(lbs, false);
      Ok(Report(details, Found(entries)))
  }

  /** A non-empty list is reported exactly when every entry passes, and
      then the found text shows exactly the valid entries, reshaped, in
      order. */
  lemma {:induction false} ReportedEntries(lbs: seq<Value>)
    requires |lbs| > 0
    ensures ReportFindings(Arr(lbs)).Ok? <==> forall i | 0 <= i < |lbs| :: Passes(lbs, i, false)
    ensures ReportFindings(Arr(lbs)).Ok? ==>
              ReportFindings(Arr(lbs)) == Ok(Report(Arr(lbs), Found(MapSeq(Filter(lbs, Valid), Shape))))
  {
    assert Truthy(Arr(lbs)) && Iterate(Arr(lbs)) == Items(lbs);
    ReshapeOk(lbs, false);
    if forall i | 0 <= i < |lbs| :: Passes(lbs, i, false) {
      ReshapeValid(lbs, false);
    }
  }

  /** `inject_data` writes the configured threshold and nothing else. */
  function InjectData(details: Value, threshold: int): (r: Result<Value>)
    ensures r.Ok? <==> HasInputDict(details)
    ensures r.Ok? ==> AddsOnly(details, r.value, "elb_error_rate_threshold", Int(threshold))
  {
    Inject(details, ThresholdKey, Int(threshold))
  }
}
