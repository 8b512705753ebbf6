/** What every check plugin shares: the `Result` it hands back, the keyed
    entries its `report_findings` builds, and the `inject_data` hook that
    writes a configured threshold into the provider snapshot.
 */
module Checks {
  import opened Wrappers
  import opened Values

  /** The `formatted` text of a returned `Result`: either the "found" template
      rendered over `shown` (YAML and template text are not modelled), or one
      of the fixed fallback strings. */
  datatype Formatted<+T> = Found(shown: T) | Fallback(message: string)

  /** A returned `Result`: its `details` and its `formatted` text. The
      constant `relates_to`, `result_name` and `result_description` strings
      are left out. */
  datatype Report<+D, +T> = Report(details: D, formatted: Formatted<T>)

  /** A one-key dict `{key: fields}` built by a `report_findings` loop. The
      key may be any hashable value, which a `map<string, Value>` cannot hold. */
  datatype Entry = Entry(key: Value, fields: map<string, Value>)

  /** Building the dict display `{key: fields}`: the key is hashed last, after
      the field values were read. */
  function MakeEntry(key: Value, fields: map<string, Value>): (r: Result<Entry>)
    ensures r.Ok? <==> Hashable(key)
    ensures r.Ok? ==> r.value.key == key && r.value.fields == fields
  {
    if Hashable(key) then Ok(Entry(key, fields)) else Err(TypeError)
  }

  /** The snapshot `details["input"]` can be written to only when `details`
      is a dict whose `"input"` is a dict. */
  predicate HasInputDict(details: Value) {
    details.Obj? && "input" in details.fields && details.fields["input"].Obj?
  }

  /** `after` is `before` with exactly `details["input"][key]` set to `v`:
      every other snapshot field and every other top-level key is unchanged. */
  predicate AddsOnly(before: Value, after: Value, key: string, v: Value)
    requires HasInputDict(before)
  {
    var input := before.fields["input"].fields;
    && HasInputDict(after)
    && after.fields.Keys == before.fields.Keys
    && (forall k | k in before.fields && k != "input" :: after.fields[k] == before.fields[k])
    && after.fields["input"].fields.Keys == input.Keys + {key}
    && after.fields["input"].fields[key] == v
    && (forall k | k in input && k != key :: after.fields["input"].fields[k] == input[k])
  }

  /** `data.details["input"][key] = v`, the whole of every `inject_data`. A
      list `details` raises TypeError (string index), a missing `"input"`
      raises KeyError, and a non-dict snapshot raises TypeError (no item
      assignment). */
  function Inject(details: Value, key: string, v: Value): (r: Result<Value>)
    ensures r.Ok? <==> HasInputDict(details)
    ensures r.Ok? ==> AddsOnly(details, r.value, key, v)
    ensures r.Err? && details.Obj? && "input" !in details.fields ==> r.error == KeyError
  {
    match details
    case Obj(top) =>
      if "input" !in top then Err(KeyError)
      else if !top["input"].Obj? then Err(TypeError)
      else Ok(Obj(top["input" := Obj(top["input"].fields[key := v])]))
    case _ => Err(TypeError)
  }

  /** `100 * matched / total if total > 0 else 0`: the share of the total as
      an exact rational (Python's float rounding is not modelled), or the
      integer 0 when there is nothing to divide by. */
  function Percentage(matched: nat, total: nat): (r: Value)
    ensures IsNumber(r)
    ensures total == 0 ==> r == Int(0)
    ensures total > 0 ==> NumberOf(r) * total as real == 100.0 * matched as real
    ensures matched <= total ==> 0.0 <= NumberOf(r) <= 100.0
  {
    if total > 0 then Num(100.0 * matched as real / total as real) else Int(0)
  }

  /** Comparing a share against a whole-number percentage is comparing
      `100 * matched` against `c * total`. */
  lemma PercentageCompare(matched: nat, total: nat, c: int)
    requires total > 0
    ensures NumberOf(Percentage(matched, total)) >= c as real <==> 100 * matched >= c * total
    ensures NumberOf(Percentage(matched, total)) > c as real <==> 100 * matched > c * total
  {
    var p := NumberOf(Percentage(matched, total));
    var n := total as real;
    assert p * n == 100.0 * matched as real;
    assert p >= c as real <==> p * n >= c as real * n;
    assert p > c as real <==> p * n > c as real * n;
    assert (100 * matched) as real == 100.0 * matched as real;
    assert (c * total) as real == c as real * n;
  }
  const InvalidFormat := "Error: Invalid data format for details."

  /** The `report_findings` shared by the IAM checks: a list is the findings
      themselves, a dict holds them under `key` (absent meaning none), and
      anything else is reported as malformed. Non-empty findings get the
      found text, empty ones `noneFound`; `details` is returned as given. */
  function Dispatch(details: Value, key: string, noneFound: string): (r: Report<Value, Value>)
    ensures r.details == details
    ensures !details.Arr? && !details.Obj? ==> r.formatted == Fallback(InvalidFormat)
    ensures details.Arr? ==> r.formatted == if |details.items| > 0 then Found(details) else Fallback(noneFound)
    ensures details.Obj? ==>
              var found := if key in details.fields then details.fields[key] else Arr([]);
              r.formatted == if Truthy(found) then Found(found) else Fallback(noneFound)
  {
    if details.Arr? || details.Obj? then
      var found := if details.Arr? then details else if key in details.fields then details.fields[key] else Arr([]);
      Report(details, if Truthy(found) then Found(found) else Fallback(noneFound))
    else
      Report(details, Fallback(InvalidFormat))
  }
}
