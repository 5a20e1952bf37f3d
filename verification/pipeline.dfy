/**
 * The pipelines of `fact_check_text` and `fact_check_url`: extract the claims,
 * then run the single-claim check over them in order, reporting progress
 * before each one.
 */
module Pipeline {
  import opened Wrappers
  import opened Text
  import opened Json
  import opened Fences
  import opened Claims
  import opened Checker

  /**
   * Running checks one after another until one raises: the values of all of
   * them, or the error of the first that fails.
   */
  function Collect<T, E>(outcomes: seq<Result<T, E>>): (r: Result<seq<T>, E>)
    ensures r.Success? ==> |r.value| == |outcomes| && forall i :: 0 <= i < |outcomes| ==> outcomes[i] == Success(r.value[i])
  {
    if outcomes == [] then Success([])
    else
      var n := |outcomes| - 1;
      match Collect(outcomes[..n])
      case Failure(e) => Failure(e)
      case Success(done) =>
        match outcomes[n]
        case Failure(e) => Failure(e)
        case Success(v) => Success(done + [v])
  }

  /** The run succeeds exactly when every check does. */
  lemma {:induction false} CollectSucceedsIff<T, E>(outcomes: seq<Result<T, E>>)
    ensures Collect(outcomes).Success? <==> forall i :: 0 <= i < |outcomes| ==> outcomes[i].Success?
  {
    if outcomes != [] {
      var n := |outcomes| - 1;
      CollectSucceedsIff(outcomes[..n]);
      assert forall i :: 0 <= i < n ==> outcomes[..n][i] == outcomes[i];
    }
  }

  /** One more check extends a successful run, or ends it with its error. */
  lemma CollectStep<T, E>(outcomes: seq<Result<T, E>>, next: Result<T, E>)
    ensures Collect(outcomes + [next]) ==
            match Collect(outcomes)
            case Failure(e) => Failure(e)
            case Success(done) => (match next case Failure(e) => Failure(e) case Success(v) => Success(done + [v]))
  {
    assert (outcomes + [next])[..|outcomes|] == outcomes;
  }

  /** Once the checks of a prefix fail, nothing after it matters: the run fails with that error. */
  lemma {:induction false} CollectStopsAtFailure<T, E>(outcomes: seq<Result<T, E>>, k: nat)
    requires k <= |outcomes|
    requires Collect(outcomes[..k]).Failure?
    ensures Collect(outcomes) == Collect(outcomes[..k])
    decreases |outcomes| - k
  {
    if k < |outcomes| {
      assert outcomes[..k + 1][..k] == outcomes[..k];
      CollectStopsAtFailure(outcomes, k + 1);
    } else {
      assert outcomes[..k] == outcomes;
    }
  }

  /** What `fact_check_single_claim` gives for each claim, its `i`-th call being `check(claims[i], i)`. */
  function Outcomes(claims: seq<string>, check: (string, nat) -> Result<ClaimResult, PyError>)
    : seq<Result<ClaimResult, PyError>>
  {
    seq(|claims|, i requires 0 <= i < |claims| => check(claims[i], i))
  }

  /**
   * The single-claim check over the claims in order: one result per claim,
   * the `i`-th being the check of the `i`-th claim, or the error of the
   * first check that raises.
   */
  function CheckAll(claims: seq<string>, check: (string, nat) -> Result<ClaimResult, PyError>)
    : (r: Result<seq<ClaimResult>, PyError>)
    ensures r.Success? ==> |r.value| == |claims| && forall i :: 0 <= i < |claims| ==> check(claims[i], i) == Success(r.value[i])
    ensures r.Success? <==> forall i :: 0 <= i < |claims| ==> check(claims[i], i).Success?
  {
    CollectSucceedsIff(Outcomes(claims, check));
    Collect(Outcomes(claims, check))
  }

  /** What `on_progress` receives before the `i`-th claim (0-based) of `total`. */
  datatype Progress = Progress(message: string, index: nat, total: nat)

  /** `f"Checking claim {i + 1}/{len(claims)}: {claim}"`. */
  function ProgressMessage(i: nat, total: nat, claim: string): (m: string)
    ensures StartsWith(m, "Checking claim ")
    ensures EndsWith(m, ": " + claim)
  {
    var m := "Checking claim " + NatToString(i + 1) + "/" + NatToString(total) + ": " + claim;
    assert m[..15] == "Checking claim ";
    assert m[|m| - |": " + claim|..] == ": " + claim;
    m
  }

  /** The report made before checking the `i`-th claim. */
  function Report(claims: seq<string>, i: nat): (p: Progress)
    requires i < |claims|
    ensures p.index == i && p.total == |claims|
    ensures StartsWith(p.message, "Checking claim ") && EndsWith(p.message, ": " + claims[i])
  {
    Progress(ProgressMessage(i, |claims|, claims[i]), i, |claims|)
  }

  /** The progress reports for the first `k` claims, in order, or none without a callback. */
  function Reports(claims: seq<string>, k: nat, reporting: bool): (r: seq<Progress>)
    requires k <= |claims|
    ensures |r| == if reporting then k else 0
  {
    if !reporting || k == 0 then [] else Reports(claims, k - 1, reporting) + [Report(claims, k - 1)]
  }

  /** With a callback, the `i`-th report is the one for the `i`-th claim. */
  lemma {:induction false} ReportsInOrder(claims: seq<string>, k: nat)
    requires k <= |claims|
    ensures forall i :: 0 <= i < k ==> Reports(claims, k, true)[i] == Report(claims, i)
  {
    if k > 0 {
      ReportsInOrder(claims, k - 1);
    }
  }

  /**
   * The loop of `fact_check_text` and `fact_check_url`: for each claim in
   * order, report progress when there is a callback, then check the claim
   * and append its result. An exception stops the loop right after the
   * report for the claim that raised.
   */
  method CheckClaims(claims: seq<string>, check: (string, nat) -> Result<ClaimResult, PyError>, reporting: bool)
    returns (outcome: Result<seq<ClaimResult>, PyError>, reports: seq<Progress>)
    ensures outcome == CheckAll(claims, check)
    ensures outcome.Success? ==> reports == Reports(claims, |claims|, reporting)
    ensures outcome.Failure? ==> exists k ::
              && 0 <= k < |claims|
              && (forall i :: 0 <= i < k ==> check(claims[i], i).Success?)
              && check(claims[k], k) == Failure(outcome.error)
              && reports == Reports(claims, k + 1, reporting)
  {
    ghost var outcomes := Outcomes(claims, check);
    var results: seq<ClaimResult> := [];
    reports := [];
    var i := 0;
    while i < |claims|
      invariant 0 <= i <= |claims|
      invariant Collect(outcomes[..i]) == Success(results)
      invariant forall j :: 0 <= j < i ==> check(claims[j], j).Success?
      invariant reports == Reports(claims, i, reporting)
    {
      if reporting {
        reports := reports + [Report(claims, i)];
      }
      assert reports == Reports(claims, i + 1, reporting);
      var checked := check(claims[i], i);
      assert outcomes[..i + 1] == outcomes[..i] + [checked];
      CollectStep(outcomes[..i], checked);
      if checked.Failure? {
        CollectStopsAtFailure(outcomes, i + 1);
        assert check(claims[i], i) == Failure(checked.error);
        return Failure(checked.error), reports;
      }
      results := results + [checked.value];
      i := i + 1;
    }
    assert outcomes[..i] == outcomes;
    outcome := Success(results);
  }

  /**
   * `fact_check_single_claim` as the pipelines call it: the `i`-th call is
   * answered by the model with `answer(i)`.
   */
  function Verifier(answer: nat -> string, parse: string -> Option<Json>, pyStr: Json -> string)
    : (check: (string, nat) -> Result<ClaimResult, PyError>)
    ensures forall claim, i :: check(claim, i).Failure? <==>
              parse(StripFences(answer(i))).Some? && !parse(StripFences(answer(i))).value.JObject?
    ensures forall claim, i :: check(claim, i).Success? ==>
              && check(claim, i).value.claim == claim
              && check(claim, i).value.verdict in Verdicts
              && |check(claim, i).value.sources| <= 5
  {
    var check := (claim: string, i: nat) => CheckClaim(claim, answer(i), parse, pyStr);
    assert forall claim, i :: check(claim, i) == CheckClaim(claim, answer(i), parse, pyStr);
    check
  }

  /**
   * A pipeline that checks all its claims returns one result per claim, in
   * claim order: the `i`-th result is about the `i`-th claim, has one of the
   * three verdicts and at most five sources.
   */
  lemma ResultsMatchClaims(claims: seq<string>, answer: nat -> string, parse: string -> Option<Json>, pyStr: Json -> string)
    requires CheckAll(claims, Verifier(answer, parse, pyStr)).Success?
    ensures var results := CheckAll(claims, Verifier(answer, parse, pyStr)).value;
            && |results| == |claims|
            && forall i :: 0 <= i < |claims| ==>
                 results[i].claim == claims[i] && results[i].verdict in Verdicts && |results[i].sources| <= 5
  {
    var results := CheckAll(claims, Verifier(answer, parse, pyStr)).value;
    forall i | 0 <= i < |claims|
      ensures results[i].claim == claims[i] && results[i].verdict in Verdicts && |results[i].sources| <= 5
    {
      assert CheckClaim(claims[i], answer(i), parse, pyStr) == Success(results[i]);
    }
  }

  /** A pipeline raises exactly when the model answers some claim with parsable JSON that is not an object. */
  lemma PipelineRaisesIff(claims: seq<string>, answer: nat -> string, parse: string -> Option<Json>, pyStr: Json -> string)
    ensures CheckAll(claims, Verifier(answer, parse, pyStr)).Failure? <==>
            exists i :: 0 <= i < |claims| && parse(StripFences(answer(i))).Some? && !parse(StripFences(answer(i))).value.JObject?
  {
    var check := Verifier(answer, parse, pyStr);
    if CheckAll(claims, check).Failure? {
      var i :| 0 <= i < |claims| && !check(claims[i], i).Success?;
      assert CheckClaim(claims[i], answer(i), parse, pyStr).Failure?;
    } else {
      forall i | 0 <= i < |claims|
        ensures !(parse(StripFences(answer(i))).Some? && !parse(StripFences(answer(i))).value.JObject?)
      {
        assert CheckClaim(claims[i], answer(i), parse, pyStr).Success?;
      }
    }
  }

  /**
   * `fact_check_text`: extract the claims (the extraction model having
   * answered `extractionReply`); no claims gives `[]` without any report,
   * otherwise the claims are checked in order.
   */
  method FactCheckText(extractionReply: string, maxClaims: nat, answer: nat -> string,
                       parse: string -> Option<Json>, pyStr: Json -> string, reporting: bool)
    returns (outcome: Result<seq<ClaimResult>, PyError>, reports: seq<Progress>)
    ensures var claims := ExtractClaims(extractionReply, maxClaims, parse);
            && outcome == CheckAll(claims, Verifier(answer, parse, pyStr))
            && (outcome.Success? ==> |outcome.value| <= maxClaims && reports == Reports(claims, |claims|, reporting))
            && (claims == [] ==> outcome == Success([]) && reports == [])
            && (outcome.Failure? ==> exists k ::
                  && 0 <= k < |claims|
                  && (forall i :: 0 <= i < k ==> Verifier(answer, parse, pyStr)(claims[i], i).Success?)
                  && Verifier(answer, parse, pyStr)(claims[k], k) == Failure(outcome.error)
                  && reports == Reports(claims, k + 1, reporting))
  {
    var claims := ExtractClaims(extractionReply, maxClaims, parse);
    if claims == [] {
      return Success([]), [];
    }
    outcome, reports := CheckClaims(claims, Verifier(answer, parse, pyStr), reporting);
  }

  /**
   * `fact_check_url`: the same pipeline on the claims extracted from a
   * fetched page; a failed request or a short page gives `[]` without any
   * report.
   */
  method FactCheckUrl(page: PageFetch, extractionReply: string, maxClaims: nat, answer: nat -> string,
                      parse: string -> Option<Json>, pyStr: Json -> string, reporting: bool)
    returns (outcome: Result<seq<ClaimResult>, PyError>, reports: seq<Progress>)
    ensures var claims := ExtractClaimsFromUrl(page, extractionReply, maxClaims, parse);
            && outcome == CheckAll(claims, Verifier(answer, parse, pyStr))
            && (outcome.Success? ==> |outcome.value| <= maxClaims && reports == Reports(claims, |claims|, reporting))
            && (claims == [] ==> outcome == Success([]) && reports == [])
            && (outcome.Failure? ==> exists k ::
                  && 0 <= k < |claims|
                  && (forall i :: 0 <= i < k ==> Verifier(answer, parse, pyStr)(claims[i], i).Success?)
                  && Verifier(answer, parse, pyStr)(claims[k], k) == Failure(outcome.error)
                  && reports == Reports(claims, k + 1, reporting))
  {
    var claims := ExtractClaimsFromUrl(page, extractionReply, maxClaims, parse);
    if claims == [] {
      return Success([]), [];
    }
    outcome, reports := CheckClaims(claims, Verifier(answer, parse, pyStr), reporting);
  }
}
