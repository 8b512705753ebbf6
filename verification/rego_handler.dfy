/** The pure steps of the Rego handler: finding the package name in a
    policy, turning it into the path OPA stores it under, choosing the data
    a check runs on, and unpacking OPA's decision.
 */
module RegoHandler {
  import opened Wrappers
  import opened Values
  import opened Seqs
  import opened Text

  // ---------------------------------------------------------------------
  // The package name

  const Keyword := "package"

  /** `[a-zA-Z0-9_.]`. */
  predicate IsIdentChar(c: char) {
    ('a' <= c <= 'z') || ('A' <= c <= 'Z') || ('0' <= c <= '9') || c == '_' || c == '.'
  }

  predicate AllIdent(s: string) {
    forall j | 0 <= j < |s| :: IsIdentChar(s[j])
  }

  predicate AllSpace(s: string) {
    forall j | 0 <= j < |s| :: IsSpace(s[j])
  }

  /** `re.match(r"^package\s+([a-zA-Z0-9_.]+)", line.strip())`. */
  function MatchPackage(line: string): (r: Option<string>)
    ensures r.Some? ==> |r.value| > 0 && AllIdent(r.value)
  {
    MatchStripped(Strip(line))
  }

  /** The group, if `s` starts with the keyword, at least one whitespace
      character and at least one name character. The group runs as far as
      the name characters go. */
  function MatchStripped(s: string): (r: Option<string>)
    ensures r.Some? ==> |r.value| > 0 && AllIdent(r.value)
  {
    if |s| < |Keyword| || s[..|Keyword|] != Keyword then None
    else
      var rest := s[|Keyword|..];
      var gap := PrefixRun(rest, IsSpace);
      var after := rest[gap..];
      var n := PrefixRun(after, IsIdentChar);
      if gap == 0 || n == 0 then None else Some(after[..n])
  }

  /** `s` reads: the keyword, the whitespace `ws`, the name, and a `tail`
      that does not continue the name. */
  predicate Decomposes(s: string, ws: string, name: string, tail: string) {
    && s == Keyword + ws + name + tail
    && |ws| > 0 && AllSpace(ws)
    && |name| > 0 && AllIdent(name)
    && (|tail| > 0 ==> !IsIdentChar(tail[0]))
  }

  /** A match comes from a decomposition of the text. */
  lemma MatchSound(s: string)
    requires MatchStripped(s).Some?
    ensures exists ws, tail :: Decomposes(s, ws, MatchStripped(s).value, tail)
  {
    var rest := s[|Keyword|..];
    var gap := PrefixRun(rest, IsSpace);
    var after := rest[gap..];
    var n := PrefixRun(after, IsIdentChar);
    var ws, name, tail := rest[..gap], after[..n], after[n..];
    assert MatchStripped(s) == Some(name);
    assert s == Keyword + ws + name + tail by {
      Pieces(s, |Keyword|, gap, n);
    }
    assert AllSpace(ws) && AllIdent(name);
    assert Decomposes(s, ws, name, tail);
  }

  /** A string cut at the keyword, after the gap and after the name. */
  lemma Pieces(s: string, i: nat, gap: nat, n: nat)
    requires i + gap + n <= |s|
    ensures s == s[..i] + s[i..][..gap] + s[i..][gap..][..n] + s[i..][gap..][n..]
  {
    assert s[i..][gap..] == s[i + gap..];
    assert s[i..][gap..][..n] == s[i + gap..i + gap + n];
    assert s[i..][gap..][n..] == s[i + gap + n..];
    assert s[i..][..gap] == s[i..i + gap];
    assert s == s[..i] + s[i..i + gap] + s[i + gap..i + gap + n] + s[i + gap + n..];
  }

  /** A decomposition of the text determines the match. */
  lemma MatchComplete(s: string, ws: string, name: string, tail: string)
    requires Decomposes(s, ws, name, tail)
    ensures MatchStripped(s) == Some(name)
  {
    assert s[..|Keyword|] == Keyword;
    var rest := s[|Keyword|..];
    assert rest == ws + (name + tail);
    assert !IsSpace(name[0]);
    PrefixRunIs(rest, IsSpace, |ws|);
    var after := rest[|ws|..];
    assert after == name + tail;
    PrefixRunIs(after, IsIdentChar, |name|);
    assert after[..|name|] == name;
  }

  /** A line yields `name` exactly when its stripped text decomposes as
      keyword, whitespace, `name` and a tail that does not continue it. */
  lemma {:induction false} MatchPackageSpec(line: string, name: string)
    ensures MatchPackage(line) == Some(name) <==> exists ws, tail :: Decomposes(Strip(line), ws, name, tail)
  {
    var s := Strip(line);
    if MatchStripped(s) == Some(name) {
      MatchSound(s);
    }
    if exists ws, tail :: Decomposes(s, ws, name, tail) {
      var ws, tail :| Decomposes(s, ws, name, tail);
      MatchComplete(s, ws, name, tail);
    }
  }

  /** A line without surrounding whitespace is its own stripped text. */
  lemma Unpadded(line: string)
    requires |line| > 0 ==> !IsSpace(line[0]) && !IsSpace(line[|line| - 1])
    ensures Strip(line) == line
  {
    StripPadded("", line, "");
    assert "" + line + "" == line;
  }

  /** The group stops at the first character outside the name class. */
  lemma MatchStopsAtOtherChar()
    ensures MatchPackage("package a.b-c") == Some("a.b")
  {
    var line := "package a.b-c";
    Unpadded(line);
    assert line == Keyword + " " + "a.b" + "-c";
    assert AllSpace(" ") && AllIdent("a.b") && !IsIdentChar('-');
    MatchComplete(line, " ", "a.b", "-c");
  }

  /** The keyword must be followed by whitespace. */
  lemma MatchNeedsSpace()
    ensures MatchPackage("packagefoo") == None
  {
    var line := "packagefoo";
    Unpadded(line);
    assert line[|Keyword|..] == "foo";
    assert PrefixRun("foo", IsSpace) == 0;
  }

  /** The group of the first line `m` matches, and ValueError when none
      does. */
  function FirstGroup(lines: seq<string>, m: string -> Option<string>): (r: Result<string>)
    ensures r.Ok? <==> exists i | 0 <= i < |lines| :: m(lines[i]).Some?
    ensures r.Err? ==> r.error == ValueError
    ensures r.Ok? ==> exists i | 0 <= i < |lines| :: m(lines[i]) == Some(r.value)
  {
    if |lines| == 0 then Err(ValueError)
    else match m(lines[0])
      case Some(name) => Ok(name)
      case None =>
        var r := FirstGroup(lines[1..], m);
        assert forall i | 1 <= i < |lines| :: lines[i] == lines[1..][i - 1];
        r
  }

  /** The first matching line decides: earlier lines do not match and later
      ones are ignored. */
  lemma {:induction false} FirstGroupWins(lines: seq<string>, m: string -> Option<string>, k: nat)
    requires k < |lines| && m(lines[k]).Some?
    requires forall i | 0 <= i < k :: m(lines[i]).None?
    ensures FirstGroup(lines, m) == Ok(m(lines[k]).value)
  {
    if k > 0 {
      assert m(lines[0]).None?;
      assert lines[1..][k - 1] == lines[k];
      forall i | 0 <= i < k - 1 ensures m(lines[1..][i]).None? {
        assert lines[1..][i] == lines[i + 1];
      }
      FirstGroupWins(lines[1..], m, k - 1);
    }
  }

  /** `extract_package_name` over the file's lines. */
  function ExtractPackageName(lines: seq<string>): (r: Result<string>)
    ensures r.Ok? <==> exists i | 0 <= i < |lines| :: MatchPackage(lines[i]).Some?
    ensures r.Err? ==> r.error == ValueError
    ensures r.Ok? ==> |r.value| > 0 && AllIdent(r.value)
  {
    FirstGroup(lines, MatchPackage)
  }

  /** A successful scan returns the group of the first line `m` matches. */
  lemma {:induction false} FirstGroupIsFirst(lines: seq<string>, m: string -> Option<string>)
    ensures FirstGroup(lines, m).Ok? ==>
              exists k | 0 <= k < |lines| ::
                && m(lines[k]) == Some(FirstGroup(lines, m).value)
                && forall i | 0 <= i < k :: m(lines[i]).None?
  {
    if |lines| > 0 && m(lines[0]).None? && FirstGroup(lines[1..], m).Ok? {
      FirstGroupIsFirst(lines[1..], m);
      var k :| 0 <= k < |lines| - 1 && m(lines[1..][k]) == Some(FirstGroup(lines[1..], m).value)
                && forall i | 0 <= i < k :: m(lines[1..][i]).None?;
      assert lines[1..][k] == lines[k + 1];
      forall i | 0 <= i < k + 1 ensures m(lines[i]).None? {
        if i > 0 { assert lines[i] == lines[1..][i - 1]; }
      }
    }
  }

  /** The package name is the group of the first matching line: every
      earlier line fails to match, and later `package` lines are ignored. */
  lemma FirstMatchWins(lines: seq<string>)
    ensures ExtractPackageName(lines).Ok? ==>
              exists k | 0 <= k < |lines| ::
                && MatchPackage(lines[k]) == Some(ExtractPackageName(lines).value)
                && forall i | 0 <= i < k :: MatchPackage(lines[i]).None?
  {
    FirstGroupIsFirst(lines, MatchPackage);
  }

  // ---------------------------------------------------------------------
  // The policy path

  /** `package_name.replace(".", "/")`. */
  function PolicyPath(name: string): (r: string)
    ensures |r| == |name|
    ensures '.' !in r
  {
    ReplaceAllLength(name, '.', "/");
    ReplaceAll(name, '.', "/")
  }

  /** A package name has no "/", so the path determines it: replacing "/"
      back by "." restores the name. */
  lemma PolicyPathInverse(name: string)
    requires AllIdent(name)
    ensures ReplaceAll(PolicyPath(name), '/', ".") == name
  {
    assert '/' !in name;
    ReplaceAllInverse(name, '.', '/');
  }

  // ---------------------------------------------------------------------
  // The data a check runs on

  /** An entry of the pipeline's dependencies. */
  datatype Dependency = Dependency(kind: string, name: string)

  /** Where a check's input comes from: the one provider's `gather_data`,
      the first prior result, or an empty result whose details are `{}`. */
  datatype Source<R> = Gathered(provider: Dependency) | Prior(result: R) | Fresh

  const OneProvider := "Rego plugins can only use one provider."

  predicate IsProvider(d: Dependency, uses: set<string>) {
    d.kind == "provider" && d.name in uses
  }

  /** `process_plugin`'s choice of data: the dependencies that are
      providers the plugin uses; more than one raises, exactly one is
      queried, and none falls back to the prior results. */
  function SelectData<R>(deps: seq<Dependency>, uses: set<string>, prior: seq<R>): (r: Result<Source<R>>)
    ensures r.Err? <==> exists i, j | 0 <= i < j < |deps| :: IsProvider(deps[i], uses) && IsProvider(deps[j], uses)
    ensures r.Err? ==> r.error == Raised(OneProvider)
    ensures r.Ok? && r.value.Gathered? ==>
              exists i | 0 <= i < |deps| :: deps[i] == r.value.provider && IsProvider(deps[i], uses)
    ensures r.Ok? && !r.value.Gathered? <==> forall i | 0 <= i < |deps| :: !IsProvider(deps[i], uses)
    ensures r.Ok? && !r.value.Gathered? ==> r.value == if |prior| > 0 then Prior(prior[0]) else Fresh
  {
    var p := d => IsProvider(d, uses);
    var providers := Filter(deps, p);
    FilterEmptyIff(deps, p);
    FilterTwoIff(deps, p);
    if |providers| == 0 then Ok(if |prior| > 0 then Prior(prior[0]) else Fresh)
    else if |providers| > 1 then Err(Raised(OneProvider))
    else
      FilterMembers(deps, p, providers[0]);
      Ok(Gathered(providers[0]))
  }

  // ---------------------------------------------------------------------
  // The decision

  /** `apply_check`'s unpacking of OPA's answer: `result` defaults to False
      and only a dict `result` contributes its `details`, defaulting to `[]`.
      The HTTP status is only logged, so it is not an input here. */
  function UnpackDecision(response: Value): (r: Result<Value>)
    ensures r.Ok? <==> response.Obj?
    ensures r.Ok? && !HasKey(response, "result") ==> r.value == Arr([])
    ensures r.Ok? && HasKey(response, "result") && !response.fields["result"].Obj? ==> r.value == Arr([])
    ensures HasKey(response, "result") && HasKey(response.fields["result"], "details") ==>
              r == Ok(response.fields["result"].fields["details"])
    ensures (HasKey(response, "result") && response.fields["result"].Obj? &&
             !HasKey(response.fields["result"], "details")) ==> r == Ok(Arr([]))
  {
    var decision :- Get(response, "result", Bool(false));
    if decision.Obj? then Get(decision, "details", Arr([])) else Ok(Arr([]))
  }
}
