/**
 * Verifying claims: one claim's verdict record is normalised from the model's
 * JSON reply, and the pipelines run that step over the extracted claims in
 * order, reporting progress before each one. The web search, the language
 * model, `json.loads` and Python's `str()` of a JSON value are parameters.
 */
module Checker {
  import opened Wrappers
  import opened Text
  import opened Json
  import opened Fences
  import opened Claims

  /** The outcome for one claim. `reason` is whatever the reply held under `reason`, not necessarily a string. */
  datatype ClaimResult = ClaimResult(claim: string, verdict: string, reason: Json, sources: seq<string>)

  /** The exception that escapes `fact_check_single_claim`: `data.get` on parsed JSON that is not an object. */
  datatype PyError = AttributeError

  const Verdicts: set<string> := {"true", "false", "uncertain"}

  /** The record used when the unfenced reply does not parse. */
  const FallbackReply: Json :=
    JObject([("verdict", JString("uncertain")),
             ("reason", JString("Could not parse model output.")),
             ("top_sources", JArray([]))])

  /** The facts about Python's `str()` of a parsed JSON value that the verdict logic depends on. */
  ghost predicate StrFacts(pyStr: Json -> string) {
    && (forall s :: pyStr(JString(s)) == s)
    && pyStr(JBool(true)) == "True"
    && pyStr(JBool(false)) == "False"
    && pyStr(JNull) == "None"
  }

  /** `json.loads(raw)`, or the fixed "uncertain" record when it raises. */
  function ParseOrFallback(text: string, parse: string -> Option<Json>): Json
  {
    parse(text).GetOr(FallbackReply)
  }

  /**
   * `str(data.get("verdict", "uncertain")).lower()`, replaced by `"uncertain"`
   * unless it is one of the three verdicts.
   */
  function NormaliseVerdict(entries: seq<(string, Json)>, pyStr: Json -> string): (v: string)
    ensures v in Verdicts
    ensures v == "uncertain" || v == Lower(pyStr(Get(entries, "verdict", JString("uncertain"))))
  {
    var lowered := Lower(pyStr(Get(entries, "verdict", JString("uncertain"))));
    if lowered in Verdicts then lowered else "uncertain"
  }

  /** `str()` applied to every element, as the list comprehension does. */
  function StrAll(items: seq<Json>, pyStr: Json -> string): seq<string>
  {
    seq(|items|, i requires 0 <= i < |items| => pyStr(items[i]))
  }

  /**
   * `top_sources`: absent or falsy gives `[]`, an array gives the `str()` of
   * its first five items in order, any other truthy value the one-element
   * list of its `str()`.
   */
  function NormaliseSources(entries: seq<(string, Json)>, pyStr: Json -> string): (r: seq<string>)
    ensures |r| <= 5
    ensures Lookup(entries, "top_sources").None? || !Truthy(Lookup(entries, "top_sources").value) ==> r == []
    ensures Lookup(entries, "top_sources").Some? && Lookup(entries, "top_sources").value.JArray? ==>
              var items := Lookup(entries, "top_sources").value.items;
              && |r| == (if |items| < 5 then |items| else 5)
              && forall i :: 0 <= i < |r| ==> r[i] == pyStr(items[i])
    ensures Lookup(entries, "top_sources").Some? && Truthy(Lookup(entries, "top_sources").value) &&
            !Lookup(entries, "top_sources").value.JArray? ==>
              r == [pyStr(Lookup(entries, "top_sources").value)]
  {
    var given := Lookup(entries, "top_sources");
    var value := if given.Some? && Truthy(given.value) then given.value else JArray([]);
    var list := if value.JArray? then StrAll(value.items, pyStr) else [pyStr(value)];
    Take(list, 5)
  }

  /**
   * `fact_check_single_claim` once the search and the model have run and the
   * model answered `reply`: strip the fences, parse (falling back to the
   * "uncertain" record), then normalise. Parsed JSON that is not an object
   * raises at `data.get`, which is outside the `try`.
   */
  function CheckClaim(claim: string, reply: string, parse: string -> Option<Json>, pyStr: Json -> string)
    : (r: Result<ClaimResult, PyError>)
    ensures r.Failure? <==> parse(StripFences(reply)).Some? && !parse(StripFences(reply)).value.JObject?
    ensures r.Success? ==> r.value.claim == claim && r.value.verdict in Verdicts && |r.value.sources| <= 5
  {
    var data := ParseOrFallback(StripFences(reply), parse);
    if !data.JObject? then Failure(AttributeError)
    else
      Success(ClaimResult(claim,
                          NormaliseVerdict(data.entries, pyStr),
                          Get(data.entries, "reason", JString("")),
                          NormaliseSources(data.entries, pyStr)))
  }

  /**
   * Lower-casing makes the verdict case-insensitive: a string verdict and
   * its lower-cased form normalise alike, so `"True"` and `"TRUE"` both give
   * `"true"`.
   */
  lemma VerdictIgnoresCase(s: string, pyStr: Json -> string)
    requires StrFacts(pyStr)
    ensures NormaliseVerdict([("verdict", JString(s))], pyStr) == NormaliseVerdict([("verdict", JString(Lower(s)))], pyStr)
  {
    assert Lookup([("verdict", JString(s))], "verdict") == Some(JString(s));
    assert Lookup([("verdict", JString(Lower(s)))], "verdict") == Some(JString(Lower(s)));
    LowerIdempotent(s);
  }

  /** A string verdict is kept, lower-cased, exactly when it is one of the three verdicts in some letter case. */
  lemma StringVerdict(entries: seq<(string, Json)>, s: string, pyStr: Json -> string)
    requires StrFacts(pyStr)
    requires Lookup(entries, "verdict") == Some(JString(s))
    ensures Lower(s) in Verdicts ==> NormaliseVerdict(entries, pyStr) == Lower(s)
    ensures Lower(s) !in Verdicts ==> NormaliseVerdict(entries, pyStr) == "uncertain"
  {
  }

  /** `Lower` on a string of one character class at a time. */
  lemma LowerTrue(s: string)
    requires s == "True"
    ensures Lower(s) == "true"
  {
  }

  lemma LowerFalse(s: string)
    requires s == "False"
    ensures Lower(s) == "false"
  {
  }

  lemma LowerNone(s: string)
    requires s == "None"
    ensures Lower(s) == "none" && Lower(s) !in Verdicts
  {
  }

  lemma LowerUncertain(s: string)
    requires s == "uncertain"
    ensures Lower(s) == "uncertain"
  {
  }

  /**
   * The quirks of `str(...).lower()`: a missing key gives `"uncertain"`, JSON
   * `true`/`false` stringify to `"True"`/`"False"` and so give the verdicts
   * `"true"`/`"false"`, and `null` stringifies to `"None"`, which is no
   * verdict and gives `"uncertain"`.
   */
  lemma VerdictQuirks(entries: seq<(string, Json)>, pyStr: Json -> string)
    requires StrFacts(pyStr)
    ensures Lookup(entries, "verdict").None? ==> NormaliseVerdict(entries, pyStr) == "uncertain"
    ensures Lookup(entries, "verdict") == Some(JBool(true)) ==> NormaliseVerdict(entries, pyStr) == "true"
    ensures Lookup(entries, "verdict") == Some(JBool(false)) ==> NormaliseVerdict(entries, pyStr) == "false"
    ensures Lookup(entries, "verdict") == Some(JNull) ==> NormaliseVerdict(entries, pyStr) == "uncertain"
  {
    LowerTrue(pyStr(JBool(true)));
    LowerFalse(pyStr(JBool(false)));
    LowerNone(pyStr(JNull));
    LowerUncertain(pyStr(JString("uncertain")));
  }

  /**
   * A reply whose unfenced text does not parse gives verdict `"uncertain"`,
   * reason `"Could not parse model output."` and no sources.
   */
  lemma UnparseableReply(claim: string, reply: string, parse: string -> Option<Json>, pyStr: Json -> string)
    requires StrFacts(pyStr)
    requires parse(StripFences(reply)).None?
    ensures CheckClaim(claim, reply, parse, pyStr) ==
            Success(ClaimResult(claim, "uncertain", JString("Could not parse model output."), []))
  {
    var entries := FallbackReply.entries;
    assert Lookup(entries, "verdict") == Some(JString("uncertain"));
    assert Lookup(entries, "reason") == Some(JString("Could not parse model output."));
    assert Lookup(entries, "top_sources") == Some(JArray([]));
    LowerUncertain(pyStr(JString("uncertain")));
  }

  /** Fencing a reply on lines of its own, with or without a `json` tag, does not change the outcome. */
  lemma FencingIsTransparent(claim: string, tag: string, body: string, parse: string -> Option<Json>, pyStr: Json -> string)
    requires tag == "" || IsJsonTag(tag)
    requires Trimmed(body) && !FenceAt(body, 0) && !EndsWith(body, Fence)
    ensures CheckClaim(claim, Fence + tag + "\n" + body + "\n" + Fence, parse, pyStr) ==
            CheckClaim(claim, body, parse, pyStr)
  {
    assert StripFences(Fence + tag + "\n" + body + "\n" + Fence) == StripFences(body) by {
      FencedReply(tag, body);
      StripFixed(body);
      UnfencedReply(body);
    }
  }

  /**
   * A reply `{"verdict": "True", "reason": "x", "top_sources": "http://a"}`
   * gives verdict `"true"`, keeps the reason and turns the single source
   * into a one-element list.
   */
  lemma SingleSourceReply(claim: string, reply: string, entries: seq<(string, Json)>, reason: string, url: string,
                          parse: string -> Option<Json>, pyStr: Json -> string)
    requires StrFacts(pyStr) && url != ""
    requires entries == [("verdict", JString("True")), ("reason", JString(reason)), ("top_sources", JString(url))]
    requires parse(StripFences(reply)) == Some(JObject(entries))
    ensures CheckClaim(claim, reply, parse, pyStr) == Success(ClaimResult(claim, "true", JString(reason), [url]))
  {
    SingleSourceFields(entries, reason, url);
    SingleSourceOutcome(claim, reply, entries, reason, url, parse, pyStr);
  }

  /** The outcome of a reply object from what `dict.get` finds in it. */
  lemma SingleSourceOutcome(claim: string, reply: string, entries: seq<(string, Json)>, reason: string, url: string,
                            parse: string -> Option<Json>, pyStr: Json -> string)
    requires StrFacts(pyStr) && url != ""
    requires parse(StripFences(reply)) == Some(JObject(entries))
    requires Lookup(entries, "verdict") == Some(JString("True"))
    requires Lookup(entries, "reason") == Some(JString(reason))
    requires Lookup(entries, "top_sources") == Some(JString(url))
    ensures CheckClaim(claim, reply, parse, pyStr) == Success(ClaimResult(claim, "true", JString(reason), [url]))
  {
    assert NormaliseVerdict(entries, pyStr) == "true" by {
      StringVerdict(entries, "True", pyStr);
      LowerTrue("True");
    }
    assert Get(entries, "reason", JString("")) == JString(reason);
    assert NormaliseSources(entries, pyStr) == [url] by {
      assert Truthy(JString(url));
    }
  }

  /** The members of that reply as `dict.get` sees them. */
  lemma SingleSourceFields(entries: seq<(string, Json)>, reason: string, url: string)
    requires entries == [("verdict", JString("True")), ("reason", JString(reason)), ("top_sources", JString(url))]
    ensures Lookup(entries, "verdict") == Some(JString("True"))
    ensures Lookup(entries, "reason") == Some(JString(reason))
    ensures Lookup(entries, "top_sources") == Some(JString(url))
  {
    assert entries[2].0 != "reason" && entries[2].0 != "verdict" && entries[1].0 != "verdict";
    assert LookupBefore(entries, "reason", 3) == LookupBefore(entries, "reason", 2);
    assert LookupBefore(entries, "verdict", 3) == LookupBefore(entries, "verdict", 2) == LookupBefore(entries, "verdict", 1);
  }
}
