/** Check results: how the witness produces them, how the guard judges them
    for a merge or a clear, and how a pull looks for a failure in them. */
module Checks {
  import opened Options

  /** A required check of the constitution. */
  datatype Check = Check(name: string, command: string, skipForDocsOnly: bool)

  /** One attested result; skipped is "" when the check ran. */
  datatype CheckResult = CheckResult(name: string, command: string, exitCode: int, evidenceId: string, skipped: string)

  datatype Verdict = Accepted | ChecksMissing(check: string) | ChecksFailed(check: string, exitCode: int)

  const SKIPPED_DOCS_ONLY := "docs-only change"

  ghost predicate DistinctNames(required: seq<Check>) {
    forall i, j :: 0 <= i < j < |required| ==> required[i].name != required[j].name
  }

  // ---------- the guard's judgement ----------

  /** The last result under name: later entries shadow earlier ones. */
  function Last(results: seq<CheckResult>, name: string): (r: Option<CheckResult>)
    ensures r.Some? ==> r.value in results && r.value.name == name
    ensures r.None? <==> forall i :: 0 <= i < |results| ==> results[i].name != name
  {
    if results == [] then None
    else
      var n := |results| - 1;
      if results[n].name == name then Some(results[n]) else Last(results[..n], name)
  }

  lemma {:induction false} LastAt(results: seq<CheckResult>, i: nat)
    requires i < |results|
    requires forall j :: i < j < |results| ==> results[j].name != results[i].name
    ensures Last(results, results[i].name) == Some(results[i])
  {
    var n := |results| - 1;
    if i < n {
      assert results[..n][i] == results[i];
      LastAt(results[..n], i);
    }
  }

  /** What the guard says of one required check. */
  function JudgeOne(check: Check, results: seq<CheckResult>, docsOnly: bool): Verdict {
    match Last(results, check.name)
    case None => ChecksMissing(check.name)
    case Some(r) =>
      if r.command != check.command then ChecksMissing(check.name)
      else if r.skipped != "" then
        if check.skipForDocsOnly && docsOnly then Accepted else ChecksMissing(check.name)
      else if r.exitCode != 0 then ChecksFailed(check.name, r.exitCode)
      else Accepted
  }

  /** The verdict on the first required check that is not accepted. */
  function Judge(required: seq<Check>, results: seq<CheckResult>, docsOnly: bool): Verdict {
    if required == [] then Accepted
    else
      var v := JudgeOne(required[0], results, docsOnly);
      if v != Accepted then v else Judge(required[1..], results, docsOnly)
  }

  lemma {:induction false} JudgeFirst(required: seq<Check>, results: seq<CheckResult>, docsOnly: bool, k: nat)
    requires k <= |required|
    requires forall i :: 0 <= i < k ==> JudgeOne(required[i], results, docsOnly) == Accepted
    requires k < |required| ==> JudgeOne(required[k], results, docsOnly) != Accepted
    ensures Judge(required, results, docsOnly)
         == if k == |required| then Accepted else JudgeOne(required[k], results, docsOnly)
  {
    if k > 0 {
      assert forall i :: 0 <= i < k - 1 ==> required[1..][i] == required[i + 1];
      JudgeFirst(required[1..], results, docsOnly, k - 1);
    }
  }

  lemma {:induction false} JudgeAccepts(required: seq<Check>, results: seq<CheckResult>, docsOnly: bool)
    ensures Judge(required, results, docsOnly) == Accepted
       <==> forall i :: 0 <= i < |required| ==> JudgeOne(required[i], results, docsOnly) == Accepted
  {
    if required != [] {
      JudgeAccepts(required[1..], results, docsOnly);
      assert forall i :: 0 < i < |required| ==> required[i] == required[1..][i - 1];
    }
  }

  // ---------- the judgement without its code ----------

  /** results[i] is the last entry under name. */
  ghost predicate LastEntry(results: seq<CheckResult>, name: string, i: nat) {
    i < |results| && results[i].name == name && forall j :: i < j < |results| ==> results[j].name != name
  }

  lemma {:induction false} LastIsEntry(results: seq<CheckResult>, name: string) returns (i: nat)
    requires Last(results, name).Some?
    ensures LastEntry(results, name, i) && Last(results, name) == Some(results[i])
  {
    i := |results| - 1;
    if results[i].name != name {
      i := LastIsEntry(results[..i], name);
    }
  }

  /** The last entry under the check's name has the check's command, and either
      ran and exited 0, or was skipped where both the check and the commit let it. */
  ghost predicate Passes(check: Check, results: seq<CheckResult>, docsOnly: bool) {
    exists i: nat ::
      && LastEntry(results, check.name, i)
      && results[i].command == check.command
      && ((results[i].skipped == "" && results[i].exitCode == 0)
          || (results[i].skipped != "" && check.skipForDocsOnly && docsOnly))
  }

  /** The last entry under the check's name has the check's command, ran, and exited with this code. */
  ghost predicate RanTo(check: Check, results: seq<CheckResult>, code: int) {
    exists i: nat ::
      && LastEntry(results, check.name, i)
      && results[i].command == check.command && results[i].skipped == "" && results[i].exitCode == code
  }

  ghost predicate AllPass(required: seq<Check>, results: seq<CheckResult>, docsOnly: bool) {
    forall i :: 0 <= i < |required| ==> Passes(required[i], results, docsOnly)
  }

  /** Every required check was run under its own command and exited 0. */
  ghost predicate AllRanClean(required: seq<Check>, results: seq<CheckResult>) {
    forall i :: 0 <= i < |required| ==> RanTo(required[i], results, 0)
  }

  lemma PassesExactly(check: Check, results: seq<CheckResult>, docsOnly: bool)
    ensures JudgeOne(check, results, docsOnly) == Accepted <==> Passes(check, results, docsOnly)
    ensures forall code {:trigger RanTo(check, results, code)} ::
      JudgeOne(check, results, docsOnly) == ChecksFailed(check.name, code) <==> code != 0 && RanTo(check, results, code)
    ensures JudgeOne(check, results, docsOnly).ChecksMissing? ==>
      JudgeOne(check, results, docsOnly) == ChecksMissing(check.name)
  {
    var last := Last(results, check.name);
    if last.Some? {
      var i := LastIsEntry(results, check.name);
      assert forall k: nat :: LastEntry(results, check.name, k) ==> k == i;
    }
  }

  /** The guard accepts the results exactly when every required check passes,
      whether the docs-only flag is worked out always or only when needed. */
  lemma AcceptedExactly(required: seq<Check>, results: seq<CheckResult>, docsOnly: bool)
    ensures Judge(required, results, docsOnly) == Accepted <==> AllPass(required, results, docsOnly)
    ensures Judge(required, results, AnySkipped(results) && docsOnly) == Accepted <==> AllPass(required, results, docsOnly)
  {
    FlagMattersOnlyWithSkips(required, results, docsOnly);
    JudgeAccepts(required, results, docsOnly);
    forall i | 0 <= i < |required|
      ensures JudgeOne(required[i], results, docsOnly) == Accepted <==> Passes(required[i], results, docsOnly)
    {
      PassesExactly(required[i], results, docsOnly);
    }
  }

  /** Check k is the first that does not pass. */
  ghost predicate FirstNotPassing(required: seq<Check>, results: seq<CheckResult>, docsOnly: bool, k: nat) {
    k < |required| && !Passes(required[k], results, docsOnly) && AllPass(required[..k], results, docsOnly)
  }

  /** Otherwise it names the first check that does not pass, and says that the
      check failed exactly when it ran to a nonzero exit. */
  lemma RejectedExactly(required: seq<Check>, results: seq<CheckResult>, docsOnly: bool, k: nat)
    requires FirstNotPassing(required, results, docsOnly, k)
    ensures var v := Judge(required, results, docsOnly);
      && v != Accepted && v.check == required[k].name
      && (v.ChecksMissing? ==> forall code :: !RanTo(required[k], results, code) || code == 0)
      && (v.ChecksFailed? ==> v.exitCode != 0 && RanTo(required[k], results, v.exitCode))
  {
    forall i | 0 <= i < k ensures JudgeOne(required[i], results, docsOnly) == Accepted {
      PassesExactly(required[i], results, docsOnly);
      assert required[..k][i] == required[i];
    }
    PassesExactly(required[k], results, docsOnly);
    JudgeFirst(required, results, docsOnly, k);
  }

  /** Without the docs-only licence, acceptance means everything ran clean. */
  lemma AcceptedUnskippedRanClean(required: seq<Check>, results: seq<CheckResult>)
    ensures Judge(required, results, false) == Accepted <==> AllRanClean(required, results)
  {
    AcceptedExactly(required, results, false);
    forall i | 0 <= i < |required|
      ensures Passes(required[i], results, false) <==> RanTo(required[i], results, 0)
    {
    }
  }

  predicate AnySkipped(results: seq<CheckResult>) {
    exists i :: 0 <= i < |results| && results[i].skipped != ""
  }

  /** The guard works out the docs-only flag only when some result is skipped;
      that never changes the verdict. */
  lemma {:induction false} FlagMattersOnlyWithSkips(required: seq<Check>, results: seq<CheckResult>, docsOnly: bool)
    ensures Judge(required, results, AnySkipped(results) && docsOnly) == Judge(required, results, docsOnly)
  {
    if required != [] && !AnySkipped(results) {
      var last := Last(results, required[0].name);
      if last.Some? {
        assert last.value in results;
        assert last.value.skipped == "";
      }
      FlagMattersOnlyWithSkips(required[1..], results, docsOnly);
    }
  }

  /** The results by name; a later one replaces an earlier one. */
  method ByName(results: seq<CheckResult>) returns (byName: map<string, CheckResult>)
    ensures forall n :: n in byName <==> Last(results, n).Some?
    ensures forall n :: n in byName ==> Last(results, n) == Some(byName[n])
  {
    byName := map[];
    for i := 0 to |results|
      invariant forall n :: n in byName <==> Last(results[..i], n).Some?
      invariant forall n :: n in byName ==> Last(results[..i], n) == Some(byName[n])
    {
      assert results[..i + 1][..i] == results[..i];
      byName := byName[results[i].name := results[i]];
    }
    assert results[..|results|] == results;
  }

  /** The guard's check of a predicate: a map by name, then the required checks in order. */
  method CheckResults(required: seq<Check>, results: seq<CheckResult>, docsOnly: bool) returns (v: Verdict)
    ensures v == Judge(required, results, docsOnly)
  {
    var byName := ByName(results);
    for i := 0 to |required|
      invariant Judge(required, results, docsOnly) == Judge(required[i..], results, docsOnly)
    {
      var check := required[i];
      assert required[i..][0] == check && required[i..][1..] == required[i + 1..];
      if check.name !in byName || byName[check.name].command != check.command {
        return ChecksMissing(check.name);
      }
      var r := byName[check.name];
      if r.skipped != "" {
        if !check.skipForDocsOnly || !docsOnly {
          return ChecksMissing(check.name);
        }
        continue;
      }
      if r.exitCode != 0 {
        return ChecksFailed(check.name, r.exitCode);
      }
    }
    v := Accepted;
  }

  // ---------- the pull's search ----------

  predicate Fails(check: Check, r: CheckResult) {
    r.name == check.name && r.command == check.command && r.exitCode != 0
  }

  /** Where the search stops: the first required check with a failing result,
      and that check's first failing result. */
  ghost predicate FirstFailure(required: seq<Check>, results: seq<CheckResult>, i: nat, j: nat) {
    && FailingPair(required, results, i, j)
    && (forall a, b :: 0 <= a < i && 0 <= b < |results| ==> !FailingPair(required, results, a, b))
    && (forall b :: 0 <= b < j ==> !FailingPair(required, results, i, b))
  }

  ghost predicate NoFailure(required: seq<Check>, results: seq<CheckResult>) {
    forall a, b :: 0 <= a < |required| && 0 <= b < |results| ==> !FailingPair(required, results, a, b)
  }

  /** Result b is about required check a, under its command, and has a nonzero exit. */
  ghost predicate FailingPair(required: seq<Check>, results: seq<CheckResult>, a: int, b: int) {
    && 0 <= a < |required| && 0 <= b < |results|
    && results[b].exitCode != 0
    && required[a].name == results[b].name && required[a].command == results[b].command
  }

  /** The failure a pull reports. */
  ghost predicate IsFirstFailure(required: seq<Check>, results: seq<CheckResult>, failure: CheckResult) {
    exists i: nat, j: nat :: FirstFailure(required, results, i, j) && failure == results[j]
  }

  function FailingOf(check: Check, results: seq<CheckResult>): Option<CheckResult> {
    if results == [] then None
    else if Fails(check, results[0]) then Some(results[0])
    else FailingOf(check, results[1..])
  }

  function FindFailure(required: seq<Check>, results: seq<CheckResult>): Option<CheckResult> {
    if required == [] then None
    else
      var f := FailingOf(required[0], results);
      if f.Some? then f else FindFailure(required[1..], results)
  }

  lemma {:induction false} FailingOfFirst(check: Check, results: seq<CheckResult>, j: nat)
    requires j <= |results|
    requires forall b :: 0 <= b < j ==> !Fails(check, results[b])
    requires j < |results| ==> Fails(check, results[j])
    ensures FailingOf(check, results) == if j == |results| then None else Some(results[j])
  {
    if j > 0 {
      assert forall b :: 0 <= b < j - 1 ==> results[1..][b] == results[b + 1];
      FailingOfFirst(check, results[1..], j - 1);
    }
  }

  lemma FailsIsPair(required: seq<Check>, results: seq<CheckResult>)
    ensures forall a, b {:trigger FailingPair(required, results, a, b)} {:trigger Fails(required[a], results[b])} ::
      0 <= a < |required| && 0 <= b < |results| ==> FailingPair(required, results, a, b) == Fails(required[a], results[b])
  {
  }

  lemma {:induction false} FindFailureFirst(required: seq<Check>, results: seq<CheckResult>, i: nat, j: nat)
    requires FirstFailure(required, results, i, j)
    ensures FindFailure(required, results) == Some(results[j])
  {
    FailsIsPair(required, results);
    if i == 0 {
      FailingOfFirst(required[0], results, j);
    } else {
      FailsIsPair(required[1..], results);
      FailingOfFirst(required[0], results, |results|);
      assert forall a :: 0 <= a < |required| - 1 ==> required[1..][a] == required[a + 1];
      FindFailureFirst(required[1..], results, i - 1, j);
    }
  }

  /** What is found is the first failure, and something is found exactly when
      there is one. */
  lemma FindFailureIff(required: seq<Check>, results: seq<CheckResult>)
    ensures FindFailure(required, results).None? <==> NoFailure(required, results)
    ensures forall failure ::
      FindFailure(required, results) == Some(failure) <==> IsFirstFailure(required, results, failure)
  {
    FindFailureNoneIff(required, results);
    forall i: nat, j: nat | FirstFailure(required, results, i, j)
      ensures FindFailure(required, results) == Some(results[j])
    {
      FindFailureFirst(required, results, i, j);
    }
    if !NoFailure(required, results) {
      var i, j := SomeFirst(required, results);
      assert FirstFailure(required, results, i, j);
    }
  }

  lemma {:induction false} FindFailureNoneIff(required: seq<Check>, results: seq<CheckResult>)
    ensures FindFailure(required, results).None? <==> NoFailure(required, results)
  {
    FailsIsPair(required, results);
    if required != [] {
      FindFailureNoneIff(required[1..], results);
      FailsIsPair(required[1..], results);
      assert forall a :: 0 < a < |required| ==> required[a] == required[1..][a - 1];
      if j :| 0 <= j < |results| && Fails(required[0], results[j]) {
        var first := FirstOf(required[0], results, j);
        FailingOfFirst(required[0], results, first);
        assert FailingPair(required, results, 0, first);
      } else {
        FailingOfFirst(required[0], results, |results|);
        forall a, b | 0 <= a < |required| - 1 && 0 <= b < |results|
          ensures FailingPair(required[1..], results, a, b) == FailingPair(required, results, a + 1, b)
        {
        }
        if NoFailure(required[1..], results) {
          forall a, b | 0 <= a < |required| && 0 <= b < |results| ensures !FailingPair(required, results, a, b) {
            assert a > 0 ==> !FailingPair(required[1..], results, a - 1, b);
          }
        }
      }
    }
  }

  lemma {:induction false} FirstOf(check: Check, results: seq<CheckResult>, j: nat) returns (first: nat)
    requires j < |results| && Fails(check, results[j])
    ensures first < |results| && Fails(check, results[first]) && forall b :: 0 <= b < first ==> !Fails(check, results[b])
  {
    if b :| 0 <= b < j && Fails(check, results[b]) {
      first := FirstOf(check, results, b);
    } else {
      first := j;
    }
  }

  lemma SomeFirst(required: seq<Check>, results: seq<CheckResult>) returns (i: nat, j: nat)
    requires !NoFailure(required, results)
    ensures FirstFailure(required, results, i, j)
  {
    var a: nat, b: nat :| a < |required| && b < |results| && FailingPair(required, results, a, b);
    i, j := FirstFrom(required, results, a, b);
  }

  lemma {:induction false} FirstFrom(required: seq<Check>, results: seq<CheckResult>, a: nat, b: nat) returns (i: nat, j: nat)
    requires FailingPair(required, results, a, b)
    ensures FirstFailure(required, results, i, j)
  {
    if c: nat, d: nat :| c < a && d < |results| && FailingPair(required, results, c, d) {
      i, j := FirstFrom(required, results, c, d);
    } else {
      FailsIsPair(required, results);
      i := a;
      j := FirstOf(required[a], results, b);
    }
  }

  /** The pull's nested search. */
  method SearchFailure(required: seq<Check>, results: seq<CheckResult>) returns (found: Option<CheckResult>)
    ensures found == FindFailure(required, results)
    ensures found.None? ==> NoFailure(required, results)
    ensures found.Some? ==> IsFirstFailure(required, results, found.value)
  {
    FindFailureIff(required, results);
    for i := 0 to |required|
      invariant forall a, b :: 0 <= a < i && 0 <= b < |results| ==> !FailingPair(required, results, a, b)
    {
      for j := 0 to |results|
        invariant forall b :: 0 <= b < j ==> !FailingPair(required, results, i, b)
      {
        if results[j].name == required[i].name && results[j].command == required[i].command && results[j].exitCode != 0 {
          assert FirstFailure(required, results, i, j);
          return Some(results[j]);
        }
      }
    }
    found := None;
  }

  // ---------- the witness's run ----------

  /** What the runner says of one check: an exit, or an error (including a
      timeout or a cancellation), which is never signed. */
  datatype RunOutcome = Exit(code: int, evidenceId: string) | RunnerError

  datatype Attestation = NotAttested | Attested(checks: seq<CheckResult>, passed: bool)

  /** The result the witness records for check i when it gets that far. */
  function ResultOf(check: Check, docsOnly: bool, run: RunOutcome): CheckResult
    requires run.Exit? || (docsOnly && check.skipForDocsOnly)
  {
    if docsOnly && check.skipForDocsOnly
    then CheckResult(check.name, check.command, 0, "", SKIPPED_DOCS_ONLY)
    else CheckResult(check.name, check.command, run.code, run.evidenceId, "")
  }

  /** The first n required checks ran or were skipped, and none failed. */
  ghost predicate CleanPrefix(required: seq<Check>, docsOnly: bool, runs: seq<RunOutcome>, checks: seq<CheckResult>, n: nat)
    requires |runs| == |required|
  {
    && n <= |required| && n <= |checks|
    && forall i :: 0 <= i < n ==>
      && (runs[i].Exit? || (docsOnly && required[i].skipForDocsOnly))
      && checks[i] == ResultOf(required[i], docsOnly, runs[i])
      && checks[i].exitCode == 0
  }

  /** What the witness may sign, said of the whole run: either every required
      check is clean, or the list ends at the first one that failed. */
  ghost predicate SignedRun(required: seq<Check>, docsOnly: bool, runs: seq<RunOutcome>, checks: seq<CheckResult>, passed: bool)
    requires |runs| == |required|
  {
    if passed then |checks| == |required| && CleanPrefix(required, docsOnly, runs, checks, |required|)
    else
      var n := |checks| - 1;
      && 0 <= n < |required|
      && CleanPrefix(required, docsOnly, runs, checks, n)
      && !(docsOnly && required[n].skipForDocsOnly)
      && runs[n].Exit? && runs[n].code != 0
      && checks[n] == ResultOf(required[n], docsOnly, runs[n])
  }

  /** The runner fails on check i, which is not skipped, before any check fails. */
  ghost predicate Aborts(required: seq<Check>, docsOnly: bool, runs: seq<RunOutcome>, i: nat)
    requires |runs| == |required|
  {
    && i < |required| && runs[i].RunnerError? && !(docsOnly && required[i].skipForDocsOnly)
    && forall j :: 0 <= j < i && !(docsOnly && required[j].skipForDocsOnly) ==> runs[j].Exit? && runs[j].code == 0
  }

  /** The witness's loop over the required checks. */
  method RunChecks(required: seq<Check>, docsOnly: bool, runs: seq<RunOutcome>) returns (a: Attestation)
    requires |runs| == |required|
    ensures a.Attested? ==> SignedRun(required, docsOnly, runs, a.checks, a.passed)
    ensures a.NotAttested? <==> exists i: nat :: Aborts(required, docsOnly, runs, i)
  {
    var checks: seq<CheckResult> := [];
    for i := 0 to |required|
      invariant |checks| == i && CleanPrefix(required, docsOnly, runs, checks, i)
    {
      if docsOnly && required[i].skipForDocsOnly {
        checks := checks + [CheckResult(required[i].name, required[i].command, 0, "", SKIPPED_DOCS_ONLY)];
        continue;
      }
      if runs[i].RunnerError? {
        assert Aborts(required, docsOnly, runs, i);
        return NotAttested;
      }
      checks := checks + [CheckResult(required[i].name, required[i].command, runs[i].code, runs[i].evidenceId, "")];
      if runs[i].code != 0 {
        return Attested(checks, false);
      }
    }
    a := Attested(checks, true);
  }

  // ---------- agreement ----------

  ghost predicate NamedAlike(required: seq<Check>, checks: seq<CheckResult>) {
    |checks| <= |required| && forall i :: 0 <= i < |checks| ==> checks[i].name == required[i].name
  }

  lemma LastOfNamed(required: seq<Check>, checks: seq<CheckResult>, i: nat)
    requires DistinctNames(required) && NamedAlike(required, checks) && i < |checks|
    ensures Last(checks, required[i].name) == Some(checks[i])
  {
    forall j | i < j < |checks| ensures checks[j].name != checks[i].name {
      assert required[j].name != required[i].name;
    }
    LastAt(checks, i);
  }

  /** Result i of a signed run is about required check i; it is skipped exactly
      where that is allowed, and otherwise carries what the runner said. */
  lemma SignedNames(required: seq<Check>, docsOnly: bool, runs: seq<RunOutcome>, checks: seq<CheckResult>, passed: bool)
    requires |runs| == |required| && SignedRun(required, docsOnly, runs, checks, passed)
    ensures NamedAlike(required, checks)
    ensures forall i :: 0 <= i < |checks| ==>
      && checks[i].command == required[i].command
      && (checks[i].skipped != "" <==> docsOnly && required[i].skipForDocsOnly)
      && (checks[i].skipped != "" ==> checks[i].exitCode == 0 && checks[i].evidenceId == "")
      && (checks[i].skipped == "" ==> runs[i] == Exit(checks[i].exitCode, checks[i].evidenceId))
  {
  }

  lemma JudgeSigned(required: seq<Check>, docsOnly: bool, runs: seq<RunOutcome>, checks: seq<CheckResult>, passed: bool, i: nat)
    requires |runs| == |required| && DistinctNames(required)
    requires SignedRun(required, docsOnly, runs, checks, passed) && i < |checks| && i < |required|
    ensures JudgeOne(required[i], checks, docsOnly)
         == if checks[i].exitCode == 0 then Accepted else ChecksFailed(checks[i].name, checks[i].exitCode)
  {
    SignedNames(required, docsOnly, runs, checks, passed);
    LastOfNamed(required, checks, i);
  }

  /** The witness and the guard agree. For the checks the witness signs, the
      merge test accepts exactly when the run passed; otherwise it reports the
      first failing check as failed and the pull finds that very result. */
  lemma WitnessGuardAgree(required: seq<Check>, docsOnly: bool, runs: seq<RunOutcome>, checks: seq<CheckResult>, passed: bool)
    requires |runs| == |required| && DistinctNames(required)
    requires SignedRun(required, docsOnly, runs, checks, passed)
    ensures Judge(required, checks, docsOnly) == Accepted <==> passed
    ensures FindFailure(required, checks) == None <==> passed
    ensures !passed ==>
      var r := checks[|checks| - 1];
      Judge(required, checks, docsOnly) == ChecksFailed(r.name, r.exitCode) && FindFailure(required, checks) == Some(r)
  {
    SignedNames(required, docsOnly, runs, checks, passed);
    var n := if passed then |required| else |checks| - 1;
    forall i | 0 <= i < n ensures JudgeOne(required[i], checks, docsOnly) == Accepted {
      JudgeSigned(required, docsOnly, runs, checks, passed, i);
    }
    if passed {
      JudgeFirst(required, checks, docsOnly, n);
      FindFailureIff(required, checks);
    } else {
      JudgeSigned(required, docsOnly, runs, checks, passed, n);
      JudgeFirst(required, checks, docsOnly, n);
      FailureAtEnd(required, docsOnly, runs, checks);
    }
  }

  lemma FailureAtEnd(required: seq<Check>, docsOnly: bool, runs: seq<RunOutcome>, checks: seq<CheckResult>)
    requires |runs| == |required| && DistinctNames(required) && SignedRun(required, docsOnly, runs, checks, false)
    ensures FindFailure(required, checks) == Some(checks[|checks| - 1])
  {
    SignedNames(required, docsOnly, runs, checks, false);
    var n := |checks| - 1;
    assert FirstFailure(required, checks, n, n);
    FindFailureFirst(required, checks, n, n);
  }

  /** No signed run satisfies both the merge test and the pull test, whatever
      docs-only flag the guard works out for itself. */
  lemma MergeAndPullExclude(required: seq<Check>, docsOnly: bool, runs: seq<RunOutcome>, checks: seq<CheckResult>, passed: bool, guardFlag: bool)
    requires |runs| == |required| && DistinctNames(required)
    requires SignedRun(required, docsOnly, runs, checks, passed)
    ensures !(Judge(required, checks, guardFlag) == Accepted && FindFailure(required, checks).Some?)
  {
    WitnessGuardAgree(required, docsOnly, runs, checks, passed);
    if !passed {
      FailureIsSeen(required, docsOnly, runs, checks, guardFlag);
      JudgeAccepts(required, checks, guardFlag);
    }
  }

  /** A failure a witness signs is not skipped, so no flag makes the guard overlook it. */
  lemma FailureIsSeen(required: seq<Check>, docsOnly: bool, runs: seq<RunOutcome>, checks: seq<CheckResult>, guardFlag: bool)
    requires |runs| == |required| && DistinctNames(required) && SignedRun(required, docsOnly, runs, checks, false)
    ensures JudgeOne(required[|checks| - 1], checks, guardFlag) != Accepted
  {
    SignedNames(required, docsOnly, runs, checks, false);
    LastOfNamed(required, checks, |checks| - 1);
  }

  /** A failing result the merge test does not look at: a later result under
      the same name replaces it, or it is marked as skipped. */
  ghost predicate Overlooked(required: seq<Check>, results: seq<CheckResult>, i: nat, j: nat) {
    && FailingPair(required, results, i, j)
    && (results[j].skipped != "" || exists k :: j < k < |results| && results[k].name == results[j].name)
  }

  /** Results that pass the merge test pass the pull test too exactly when the
      merge test overlooks a failing one. */
  lemma BothAcceptIff(required: seq<Check>, results: seq<CheckResult>, docsOnly: bool)
    requires Judge(required, results, docsOnly) == Accepted
    ensures FindFailure(required, results).Some? <==> exists i: nat, j: nat :: Overlooked(required, results, i, j)
  {
    FindFailureIff(required, results);
    AcceptedExactly(required, results, docsOnly);
    if !NoFailure(required, results) {
      var i, j := SomeFirst(required, results);
      assert Passes(required[i], results, docsOnly);
      assert Overlooked(required, results, i, j);
    }
  }

  /** Predicates no witness run produces can satisfy both: a failing entry
      replaced by a passing one under the same name, or one marked as skipped. */
  lemma HandmadeResultsSatisfyBoth()
    ensures
      var required := [Check("ci", "just ci", false)];
      var results := [CheckResult("ci", "just ci", 1, "", ""), CheckResult("ci", "just ci", 0, "", "")];
      Judge(required, results, false) == Accepted && FindFailure(required, results).Some?
    ensures
      var required := [Check("ci", "just ci", true)];
      var results := [CheckResult("ci", "just ci", 1, "", "x")];
      Judge(required, results, true) == Accepted && FindFailure(required, results).Some?
  {
    var required := [Check("ci", "just ci", false)];
    var results := [CheckResult("ci", "just ci", 1, "", ""), CheckResult("ci", "just ci", 0, "", "")];
    LastAt(results, 1);
    JudgeFirst(required, results, false, 1);
    FindFailureFirst(required, results, 0, 0);
    required, results := [Check("ci", "just ci", true)], [CheckResult("ci", "just ci", 1, "", "x")];
    LastAt(results, 0);
    JudgeFirst(required, results, true, 1);
    FindFailureFirst(required, results, 0, 0);
  }
}
