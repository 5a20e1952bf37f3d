/**
 * Claim extraction after the language model has answered: the fenced JSON
 * reply becomes a list of trimmed, non-blank claims, at most `maxClaims` of
 * them, and every failure becomes the empty list. The model's reply, the
 * JSON parser and the text extracted from a fetched page are parameters.
 */
module Claims {
  import opened Wrappers
  import opened Text
  import opened Json
  import opened Fences

  /**
   * The values a Python `for` loop visits when it iterates a JSON value: the
   * one-character strings of a string, the items of an array and the keys of
   * an object. `None` stands for the `TypeError` raised by `null`, booleans
   * and numbers.
   */
  function Iterate(j: Json): Option<seq<Json>>
  {
    match j
    case JString(s) => Some(seq(|s|, i requires 0 <= i < |s| => JString([s[i]])))
    case JArray(items) => Some(items)
    case JObject(entries) =>
      var ks := Keys(entries);
      Some(seq(|ks|, i requires 0 <= i < |ks| => JString(ks[i])))
    case _ => None
  }

  /** A string, list or dict is truthy exactly when iterating it yields something. */
  lemma TruthyIffNonEmpty(j: Json)
    requires j.JString? || j.JArray? || j.JObject?
    ensures Truthy(j) <==> |Iterate(j).value| > 0
  {
    if j.JObject? && j.entries != [] {
      assert j.entries[0].0 in Keys(j.entries);
    }
  }

  /**
   * `[c.strip() for c in claims if isinstance(c, str) and c.strip()]`: every
   * kept claim is a non-empty string that is its own strip.
   */
  function KeepClaims(items: seq<Json>): (r: seq<string>)
    ensures |r| <= |items|
    ensures forall i :: 0 <= i < |r| ==> r[i] != "" && Strip(r[i]) == r[i]
  {
    if items == [] then []
    else
      var rest := KeepClaims(items[1..]);
      match items[0]
      case JString(s) =>
        StripIdempotent(s);
        if Strip(s) != "" then [Strip(s)] + rest else rest
      case _ => rest
  }

  /** The comprehension works item by item: the claims of a concatenation are the concatenated claims. */
  lemma {:induction false} KeepClaimsConcat(a: seq<Json>, b: seq<Json>)
    ensures KeepClaims(a + b) == KeepClaims(a) + KeepClaims(b)
  {
    if a == [] {
      assert a + b == b;
    } else {
      assert (a + b)[0] == a[0];
      assert (a + b)[1..] == a[1..] + b;
      KeepClaimsConcat(a[1..], b);
    }
  }

  /** An entry that is not a string, or is blank, is dropped and the others keep their order. */
  lemma KeepClaimsDrops(a: seq<Json>, x: Json, b: seq<Json>)
    requires !x.JString? || Strip(x.s) == ""
    ensures KeepClaims(a + [x] + b) == KeepClaims(a) + KeepClaims(b)
  {
    KeepClaimsConcat(a + [x], b);
    KeepClaimsConcat(a, [x]);
    assert KeepClaims([x]) == [] by { assert [x][1..] == []; }
  }

  /** A string entry that is not blank is kept, trimmed, between the claims before and after it. */
  lemma KeepClaimsKeeps(a: seq<Json>, s: string, b: seq<Json>)
    requires Strip(s) != ""
    ensures KeepClaims(a + [JString(s)] + b) == KeepClaims(a) + [Strip(s)] + KeepClaims(b)
  {
    KeepClaimsConcat(a + [JString(s)], b);
    KeepClaimsConcat(a, [JString(s)]);
    assert KeepClaims([JString(s)]) == [Strip(s)] by { assert [JString(s)][1..] == []; }
  }

  /**
   * The body of the `try` in `extract_claims_from_text` once `json.loads`
   * has run (`None` when it raised): read `claims` (default `[]`), filter and
   * trim, keep the first `maxClaims`. Every exception becomes `[]`.
   */
  function ClaimsOf(parsed: Option<Json>, maxClaims: nat): (r: seq<string>)
    ensures |r| <= maxClaims
    ensures forall i :: 0 <= i < |r| ==> r[i] != "" && Strip(r[i]) == r[i]
  {
    match parsed
    case None => []
    case Some(data) =>
      if !data.JObject? then []
      else match Iterate(Get(data.entries, "claims", JArray([])))
        case None => []
        case Some(items) => Take(KeepClaims(items), maxClaims)
  }

  /** `extract_claims_from_text` once the model has answered `reply`: the fences are stripped before parsing. */
  function ExtractClaims(reply: string, maxClaims: nat, parse: string -> Option<Json>): (r: seq<string>)
    ensures |r| <= maxClaims
    ensures forall i :: 0 <= i < |r| ==> r[i] != "" && Strip(r[i]) == r[i]
  {
    ClaimsOf(parse(StripFences(reply)), maxClaims)
  }

  /** Fencing a reply on lines of its own, with or without a `json` tag, does not change the claims. */
  lemma FencedClaims(tag: string, body: string, maxClaims: nat, parse: string -> Option<Json>)
    requires tag == "" || IsJsonTag(tag)
    requires Trimmed(body) && !FenceAt(body, 0) && !EndsWith(body, Fence)
    ensures ExtractClaims(Fence + tag + "\n" + body + "\n" + Fence, maxClaims, parse) == ExtractClaims(body, maxClaims, parse)
  {
    assert StripFences(Fence + tag + "\n" + body + "\n" + Fence) == StripFences(body) by {
      FencedReply(tag, body);
      StripFixed(body);
      UnfencedReply(body);
    }
  }

  /**
   * Every way the extraction can fail gives the empty list and none of them
   * raises: a parse error, JSON that is not an object, an object without
   * `claims`, and a `claims` value that cannot be iterated.
   */
  lemma ClaimsFailures(parsed: Option<Json>, maxClaims: nat)
    ensures parsed.None? ==> ClaimsOf(parsed, maxClaims) == []
    ensures parsed.Some? && !parsed.value.JObject? ==> ClaimsOf(parsed, maxClaims) == []
    ensures parsed.Some? && parsed.value.JObject? && Lookup(parsed.value.entries, "claims").None? ==>
              ClaimsOf(parsed, maxClaims) == []
    ensures parsed.Some? && parsed.value.JObject? && Lookup(parsed.value.entries, "claims").Some? &&
            Iterate(Lookup(parsed.value.entries, "claims").value).None? ==>
              ClaimsOf(parsed, maxClaims) == []
  {
  }

  /** A parsed object whose `claims` can be iterated yields the first `maxClaims` kept claims of its items. */
  lemma ClaimsOfItems(entries: seq<(string, Json)>, claims: Json, items: seq<Json>, maxClaims: nat)
    requires Lookup(entries, "claims") == Some(claims) && Iterate(claims) == Some(items)
    ensures ClaimsOf(Some(JObject(entries)), maxClaims) == Take(KeepClaims(items), maxClaims)
  {
  }

  /**
   * A smaller limit keeps the earliest claims of a larger one: the result is
   * always the first claims in the model's order.
   */
  lemma ExtractClaimsPrefix(reply: string, m: nat, n: nat, parse: string -> Option<Json>)
    requires m <= n
    ensures ExtractClaims(reply, m, parse) == Take(ExtractClaims(reply, n, parse), m)
  {
    ClaimsOfPrefix(parse(StripFences(reply)), m, n);
  }

  lemma ClaimsOfPrefix(parsed: Option<Json>, m: nat, n: nat)
    requires m <= n
    ensures ClaimsOf(parsed, m) == Take(ClaimsOf(parsed, n), m)
  {
    if parsed.Some? && parsed.value.JObject? {
      var claims := Iterate(Get(parsed.value.entries, "claims", JArray([])));
      if claims.Some? {
        var kept := KeepClaims(claims.value);
        assert Take(Take(kept, n), m) == Take(kept, m);
      }
    }
  }

  /** A claim without surrounding whitespace is kept as it is. */
  lemma KeepTrimmed(s: string, rest: seq<Json>)
    requires s != [] && Trimmed(s)
    ensures KeepClaims([JString(s)] + rest) == [s] + KeepClaims(rest)
  {
    StripFixed(s);
    assert ([JString(s)] + rest)[1..] == rest;
  }

  /**
   * `max_claims=2` with three clean string claims keeps the first two, as
   * `{"claims": ["a", "b", "c"]}` gives `["a", "b"]`.
   */
  lemma TwoOfThree(a: string, b: string, c: string)
    requires a != [] && Trimmed(a) && b != [] && Trimmed(b) && c != [] && Trimmed(c)
    ensures ClaimsOf(Some(JObject([("claims", JArray([JString(a), JString(b), JString(c)]))])), 2) == [a, b]
  {
    var items := [JString(a), JString(b), JString(c)];
    var entries := [("claims", JArray(items))];
    assert Lookup(entries, "claims") == Some(JArray(items));
    ClaimsOfItems(entries, JArray(items), items, 2);
    KeepTrimmed(c, []);
    KeepTrimmed(b, items[2..]);
    KeepTrimmed(a, items[1..]);
    assert [JString(a)] + items[1..] == items;
    assert [JString(b)] + items[2..] == items[1..];
    assert [JString(c)] + [] == items[2..];
  }

  /**
   * A `claims` string is iterated character by character, so `"a b"` gives
   * `["a", "b"]`: each visible character becomes a claim and the blank
   * between them is dropped.
   */
  lemma StringClaims(x: char, space: char, y: char)
    requires !IsSpace(x) && IsSpace(space) && !IsSpace(y)
    ensures ClaimsOf(Some(JObject([("claims", JString([x, space, y]))])), 8) == [[x], [y]]
  {
    var items := [JString([x]), JString([space]), JString([y])];
    var entries := [("claims", JString([x, space, y]))];
    assert Lookup(entries, "claims") == Some(JString([x, space, y]));
    var r := Iterate(JString([x, space, y])).value;
    assert |r| == 3 && r[0] == items[0] && r[1] == items[1] && r[2] == items[2];
    assert r == items;
    ClaimsOfItems(entries, JString([x, space, y]), items, 8);
    KeepTrimmed([y], []);
    assert Strip([space]) == "" by { StripEmptyIff([space]); }
    KeepClaimsDrops([], JString([space]), items[2..]);
    KeepTrimmed([x], items[1..]);
    assert [JString([x])] + items[1..] == items;
    assert [] + [JString([space])] + items[2..] == items[1..];
    assert [JString([y])] + [] == items[2..];
  }

  /** What fetching the page produced: a request error, or the text gathered from its paragraphs. */
  datatype PageFetch = RequestFailed | Fetched(mainText: string)

  /**
   * `extract_claims_from_url`: a failed request, an empty page text and a
   * page text shorter than 100 characters once stripped give `[]`;
   * otherwise the claims extracted from the text, the model having answered
   * `reply` for it.
   */
  function ExtractClaimsFromUrl(page: PageFetch, reply: string, maxClaims: nat, parse: string -> Option<Json>): (r: seq<string>)
    ensures |r| <= maxClaims
    ensures page.RequestFailed? ==> r == []
    ensures page.Fetched? && |Strip(page.mainText)| < 100 ==> r == []
    ensures page.Fetched? && |Strip(page.mainText)| >= 100 ==> r == ExtractClaims(reply, maxClaims, parse)
  {
    match page
    case RequestFailed => []
    case Fetched(mainText) =>
      if mainText == "" || |Strip(mainText)| < 100 then [] else ExtractClaims(reply, maxClaims, parse)
  }

  /** A short page gives `[]` whatever the model would have answered, so the model is never asked. */
  lemma ShortPageIgnoresModel(mainText: string, reply1: string, reply2: string, maxClaims: nat, parse: string -> Option<Json>)
    requires |Strip(mainText)| < 100
    ensures ExtractClaimsFromUrl(Fetched(mainText), reply1, maxClaims, parse) ==
            ExtractClaimsFromUrl(Fetched(mainText), reply2, maxClaims, parse) == []
  {
  }
}
