# Content fact checker: the claim verification pipeline in Dafny

This project models the core of the content fact checker. The checker extracts factual claims from a text or a web page. It gathers web evidence for each claim and asks a language model to judge each claim as `true`, `false` or `uncertain`. It spaces its calls to the model with a sliding-window rate limiter.

The model covers the four core files:

- `claims.py` (module `Claims`). Extraction post-processing: the model's reply is stripped and unfenced, then parsed. The `claims` list is filtered to trimmed, non-blank strings and cut to `max_claims`. Every failure becomes `[]`. The URL entry point drops short pages before the model is asked.
- `checker.py` (modules `Checker` and `Pipeline`). Verdict normalisation: the reply is unfenced and parsed, with a fixed "uncertain" record as the fallback. The verdict is lower-cased and checked against the three verdicts. `top_sources` is coerced to a list of at most five strings. Both pipelines run this step over the claims in order and report progress before each claim.
- `search.py` (module `Evidence`). Search results become evidence records. The records are rendered into numbered blocks with Python's `textwrap.dedent` and `str.strip`, joined by blank lines, and truncated with a marker.
- `rate_limiter.py` (module `RateLimiting`). A class whose `WaitIfNeeded` method evicts timestamps older than 60 seconds from the front of its history. It computes the wait and records the request.

Supporting modules:

- `Wrappers`: `Option` and `Result`.
- `Json`: JSON values, plus `dict.get`, dict iteration and truthiness.
- `Text`: Python's `str.strip`, `str.lower`, `str.join`, slicing, line splitting and `textwrap.dedent`.
- `Fences`: the two regular expressions that remove a leading and a trailing code fence.

Everything outside the program becomes a parameter of the model:

- the language model's replies;
- `json.loads`, as `parse: string -> Option<Json>`, where `None` means it raised;
- Python's `str()` of a parsed JSON value, as `pyStr`, with the facts the logic relies on in `Checker.StrFacts`;
- the search service's results;
- the fetched page's text;
- the clock readings.

Time is in whole milliseconds.

The default arguments are left to the caller, who passes every value: `max_claims` (8 for extraction at `claims.py:10` and `claims.py:42`, 6 for the pipelines at `checker.py:80` and `checker.py:104`) and `max_chars` (8000 at `search.py:34`).

Four behaviours of the code are easy to miss; the model follows the code in each:

- **Non-object JSON reply.** Only `json.loads` is inside the `try` at `checker.py:56-59`. The `data.get` calls at `checker.py:61`, `65` and `73` are outside it. A reply that parses to a JSON list, string, number, boolean or `null` therefore raises `AttributeError` at line 61. The loop at `checker.py:93-97` does not catch it, so the whole pipeline raises. `Checker.CheckClaim` and `Pipeline.PipelineRaisesIff` state exactly when this happens, for services that do not fail themselves.
- **Reason field.** `ClaimResult.reason` is annotated `str` at `checker.py:16`. But `checker.py:73` stores whatever JSON value the reply holds under `reason`, so in the model `ClaimResult.reason` is a `Json`.
- **Empty budget.** With `max_rpm` zero or less and an empty history, the test at `rate_limiter.py:22` passes. Reading `self.timestamps[0]` at line 23 then raises `IndexError`. `RateLimiting.Admit` returns `IndexError` there.
- **Two excerpts.** `search.py:38` joins the first two excerpts with a blank line, and the template at `search.py:39-47` indents only the first line of that text. An empty second excerpt, or one that starts with a space or a tab, leaves all or part of the common indent to remove. Take the case where no value holds a line feed, the first excerpt is not blank (empty or made only of spaces and tabs), and the second excerpt starts with a character other than a space or a tab. Then the second excerpt's line sits at the template's left edge, so `textwrap.dedent` removes no indent; it only empties the whitespace-only last line. The title, URL, date, `Excerpts:` and first-excerpt lines keep their eight-space indent; `Evidence.TwoExcerptsKeepIndent` proves this when the second excerpt also does not end in whitespace. A blank first excerpt makes its line whitespace-only, so the dedent empties that line.

## Model

| member | source | states |
|---|---|---|
| Text.Strip | src/fact_checker/claims.py:27 | `str.strip()`: the result has no leading or trailing Python whitespace and is no longer than the input |
| Text.StripFixed | src/fact_checker/claims.py:36 | a string without surrounding whitespace is its own strip |
| Text.StripIdempotent | src/fact_checker/claims.py:36 | stripping twice is stripping once, so a kept claim is already trimmed |
| Text.StripEmptyIff | src/fact_checker/claims.py:36 | `c.strip()` is falsy exactly when every character of `c` is whitespace |
| Text.Take | src/fact_checker/claims.py:37 | `xs[:n]`: the first `min(n, len(xs))` items, in order |
| Text.NatToString | src/fact_checker/search.py:40 | `{idx + 1}` prints a non-empty string of decimal digits with no leading zero |
| Text.NatToStringRoundTrip | src/fact_checker/search.py:40 | the digits printed for `idx + 1` read back as that number |
| Text.SplitLines | src/fact_checker/search.py:39-47 | splitting the template into lines gives at least one line, none holding a line feed |
| Text.JoinSplitLines | src/fact_checker/search.py:39-47 | rejoining the split lines with `\n` gives back the text |
| Text.SplitJoinLines | src/fact_checker/search.py:39-47 | splitting lines without line feeds after joining them gives back the lines |
| Text.Lower | src/fact_checker/checker.py:61 | `str.lower()`: the same length, no upper-case ASCII letter left, each upper-case letter mapped to its lower-case letter and everything else unchanged |
| Text.LowerIdempotent | src/fact_checker/checker.py:61 | lower-casing twice is lower-casing once |
| Text.Margin | src/fact_checker/search.py:39-47 | the dedent margin is absent exactly when every line is blank, and otherwise is a prefix of the indent of every non-blank line |
| Text.MarginIs | src/fact_checker/search.py:39-47 | a run of spaces and tabs that starts every non-blank line and is the whole indent of one of them is the margin |
| Text.DedentPadded | src/fact_checker/search.py:39-47 | when every line carries the same indent and one line starts visibly after it, dedenting removes exactly that indent and empties the blank lines |
| Text.DedentUnindented | src/fact_checker/search.py:39-47 | when one line starts at the left edge, dedenting only empties the blank lines |
| Text.DedentKeepsLines | src/fact_checker/search.py:39-47 | dedenting keeps the number of lines, and each line is a suffix of the line it came from |
| Text.DedentKeepsLine | src/fact_checker/search.py:39-47 | when the text opens with a line feed and then an indented line without line feeds, that line's text survives the dedent whole, behind what is left of its indent |
| Json.Lookup | src/fact_checker/checker.py:61 | `data.get(key)`: absent exactly when no member has the key, otherwise the value of the last member with it |
| Json.Get | src/fact_checker/checker.py:61 | `data.get(key, default)`: the default when no member has the key, otherwise the value of the last member with it |
| Json.Keys | src/fact_checker/claims.py:36 | iterating a parsed object visits every key once, and only the keys it has |
| Json.KeysInOrder | src/fact_checker/claims.py:36 | keys are visited in the order of their first occurrence: an earlier key first appears before a later one does |
| Fences.OpeningFenceEnd | src/fact_checker/checker.py:53 | the end of the leading fence match is 0, the end of the text, or at a non-whitespace character |
| Fences.ClosingFenceStart | src/fact_checker/checker.py:54 | the start of the trailing fence match is 0, the end of the text, or just after a non-whitespace character |
| Fences.StripLeadingFence | src/fact_checker/checker.py:53 | the result is a suffix of the text, and something is removed only when the text opens, after whitespace, with a fence that the removed part covers |
| Fences.StripTrailingFence | src/fact_checker/checker.py:54 | the result is a prefix of the text, and something is removed only when the text closes with a fence followed by whitespace, and the removed part covers that fence |
| Fences.LeadingFenceKeepsTrimmed | src/fact_checker/checker.py:53 | removing the opening fence from a stripped reply leaves no surrounding whitespace |
| Fences.TrailingFenceKeepsTrimmed | src/fact_checker/checker.py:54 | removing the closing fence from a stripped reply leaves no surrounding whitespace |
| Fences.StripFences | src/fact_checker/checker.py:50-54 | the text handed to `json.loads` has no surrounding whitespace and is no longer than the reply |
| Fences.UnfencedReply | src/fact_checker/claims.py:27-31 | a reply that neither opens nor closes with a fence is only stripped |
| Fences.LeadingFenceRemoved | src/fact_checker/claims.py:30 | an opening fence, with an optional `json` tag in any letter case, goes with the whitespace after it, and nothing else does |
| Fences.TrailingFenceRemoved | src/fact_checker/claims.py:31 | a closing fence goes with the whitespace in front of it, and nothing else does |
| Fences.FencedReply | src/fact_checker/checker.py:50-54 | a trimmed body fenced on lines of its own comes back unchanged |
| Claims.KeepClaims | src/fact_checker/claims.py:36 | every kept claim is a non-empty string that is its own strip, and there are no more claims than items |
| Claims.KeepClaimsConcat | src/fact_checker/claims.py:36 | the filter works item by item: the claims of a concatenation are the concatenated claims |
| Claims.KeepClaimsDrops | src/fact_checker/claims.py:36 | a non-string or blank item is dropped, and the others keep their order |
| Claims.KeepClaimsKeeps | src/fact_checker/claims.py:36 | a non-blank string item is kept, stripped, in its place |
| Claims.KeepTrimmed | src/fact_checker/claims.py:36 | a claim without surrounding whitespace is kept as it is |
| Claims.ClaimsOf | src/fact_checker/claims.py:33-39 | the extraction result has at most `max_claims` claims, each non-empty and trimmed |
| Claims.ClaimsFailures | src/fact_checker/claims.py:33-39 | a parse error, non-object JSON, a missing `claims` key and a non-iterable `claims` value all give `[]` |
| Claims.ClaimsOfItems | src/fact_checker/claims.py:34-37 | an object whose `claims` value can be iterated gives the first `max_claims` kept claims of its items |
| Claims.ExtractClaims | src/fact_checker/claims.py:27-39 | fences are stripped before parsing; the result is bounded by `max_claims`, and every claim is non-empty and trimmed |
| Claims.ClaimsOfPrefix | src/fact_checker/claims.py:37 | on a parsed reply, a smaller limit keeps a prefix of a larger one's claims |
| Claims.FencedClaims | src/fact_checker/claims.py:26-33 | fencing a reply on lines of its own, with or without a `json` tag, does not change the extracted claims |
| Claims.ExtractClaimsPrefix | src/fact_checker/claims.py:37 | a smaller limit keeps a prefix of a larger one's claims, so the result is the model's first claims in order |
| Claims.TwoOfThree | src/fact_checker/claims.py:35-37 | `max_claims=2` with `{"claims": ["a", "b", "c"]}` gives `["a", "b"]` |
| Claims.StringClaims | src/fact_checker/claims.py:35-36 | a `claims` string is iterated by character: `"a b"` gives `["a", "b"]` |
| Claims.ExtractClaimsFromUrl | src/fact_checker/claims.py:42-61 | a failed request gives `[]`, a page text under 100 characters once stripped gives `[]`, and otherwise the claims extracted from the text |
| Claims.ShortPageIgnoresModel | src/fact_checker/claims.py:56-59 | on a short page the result does not depend on the model's reply |
| Checker.NormaliseVerdict | src/fact_checker/checker.py:61-63 | the verdict is always one of `true`, `false`, `uncertain`, and is either `uncertain` or the lower-cased `str()` of the reply's verdict |
| Claims.TruthyIffNonEmpty | src/fact_checker/checker.py:65 | a string, list or dict is truthy exactly when iterating it yields something, so `or []` replaces exactly the empty ones |
| Checker.NormaliseSources | src/fact_checker/checker.py:65-68 | at most five sources: `[]` for an absent or falsy value, the `str()` of the first five items of an array, and a one-element list for any other value |
| Checker.CheckClaim | src/fact_checker/checker.py:49-75 | with the search and the model call not raising: raises exactly when the unfenced reply parses to JSON that is not an object; otherwise a result for the same claim, with a valid verdict and at most five sources |
| Checker.VerdictIgnoresCase | src/fact_checker/checker.py:61 | a string verdict and its lower-cased form normalise alike, so verdicts that differ only in letter case give the same result |
| Checker.StringVerdict | src/fact_checker/checker.py:61-63 | a string verdict is kept, lower-cased, exactly when it is one of the three verdicts in some letter case |
| Checker.VerdictQuirks | src/fact_checker/checker.py:61-63 | a missing verdict gives `uncertain`; JSON `true`/`false` give `true`/`false`; `null` gives `uncertain` |
| Checker.UnparseableReply | src/fact_checker/checker.py:56-75 | an unparseable reply gives `uncertain`, the fixed reason and no sources |
| Checker.FencingIsTransparent | src/fact_checker/checker.py:50-57 | fencing a reply, with or without a `json` tag, does not change the outcome |
| Checker.SingleSourceReply | src/fact_checker/checker.py:61-75 | a reply with verdict `"True"` and a single source string gives verdict `true` and a one-element source list |
| Pipeline.Collect | src/fact_checker/checker.py:92-99 | running checks in turn gives all their values in order, or an error |
| Pipeline.CollectSucceedsIff | src/fact_checker/checker.py:92-99 | the run succeeds exactly when every check does |
| Pipeline.CollectStopsAtFailure | src/fact_checker/checker.py:92-99 | once a prefix fails, later checks do not matter |
| Pipeline.CheckAll | src/fact_checker/checker.py:92-99 | on success, one result per claim in claim order; success exactly when no check raises |
| Pipeline.ProgressMessage | src/fact_checker/checker.py:95 | the message starts `Checking claim ` and ends with `: ` and the claim |
| Pipeline.Report | src/fact_checker/checker.py:94-95 | the report before claim `i` carries the index `i`, the claim count and a message naming the claim |
| Pipeline.Reports | src/fact_checker/checker.py:93-95 | one report per claim reached when there is a callback, none without |
| Pipeline.ReportsInOrder | src/fact_checker/checker.py:93-95 | the `i`-th report is the one for the `i`-th claim |
| Pipeline.CheckClaims | src/fact_checker/checker.py:92-99 | the loop's result is `CheckAll`; every claim is reported on success; on an exception, the reports stop at the claim that raised, and all earlier checks succeeded |
| Pipeline.Verifier | src/fact_checker/checker.py:96 | the check of the `i`-th claim raises exactly when the `i`-th reply parses to JSON that is not an object, whatever the claim; otherwise its result is about that claim, with a valid verdict and at most five sources |
| Pipeline.ResultsMatchClaims | src/fact_checker/checker.py:92-99 | a successful pipeline returns one result per claim, in claim order, each with a valid verdict and at most five sources |
| Pipeline.PipelineRaisesIff | src/fact_checker/checker.py:56-61 | with the search and the model calls not raising, a pipeline raises exactly when some claim's reply parses to JSON that is not an object |
| Pipeline.FactCheckText | src/fact_checker/checker.py:78-99 | no claims gives `[]` without any report; otherwise the claims are checked in order, with at most `max_claims` results and a report for each; when a check raises, every earlier check succeeded, the pipeline raises that check's error and the reports stop at its claim |
| Pipeline.FactCheckUrl | src/fact_checker/checker.py:102-119 | the same as `FactCheckText` on the claims of a fetched page; a failed request or a short page gives `[]` without any report |
| Evidence.Block | src/fact_checker/search.py:39-47 | a block has no whitespace at either end |
| Evidence.SearchWeb | src/fact_checker/search.py:23-31 | one record per result in the service's order, with the same URL, title and date, and excerpts defaulting to `[]` |
| Evidence.BlockStartsWithLabel | src/fact_checker/search.py:39-47 | every block opens with its `[Source k]` heading, whatever the record holds |
| Evidence.DedentedHeading | src/fact_checker/search.py:39-47 | the dedented template is whitespace, then the heading, then the rest |
| Evidence.CleanDedent | src/fact_checker/search.py:39-47 | with no line feed in the values and at most one excerpt, the dedent removes the whole eight-space indent |
| Evidence.ShownExcerpt | src/fact_checker/search.py:46-47 | the excerpt line the final `.strip()` leaves: a prefix of the excerpt ending in a visible character, with only whitespace cut after it, or nothing when the excerpt is all whitespace |
| Evidence.CleanBlock | src/fact_checker/search.py:38-47 | with no line feed in the values and at most one excerpt, a block is the unindented heading lines, then the excerpt without its trailing whitespace on a line of its own; nothing follows `Excerpts:` when the excerpt is missing or all whitespace (so `"abc "` shows as `abc`, a lone no-break space as nothing), and an excerpt ending in a visible character shows whole |
| Evidence.TwoExcerptsText | src/fact_checker/search.py:38 | two or more excerpts give the first two joined by a blank line |
| Evidence.TwoExcerptsDedent | src/fact_checker/search.py:38-47 | when no value holds a line feed, the first excerpt is not blank and the second starts with a character other than a space or a tab, the dedent removes no indent and only empties the whitespace-only last line |
| Evidence.TwoExcerptsKeepIndent | src/fact_checker/search.py:38-47 | under the same conditions, and with the second excerpt not ending in whitespace, the block keeps the eight-space indent on its title, URL, date, `Excerpts:` and first excerpt lines |
| Evidence.BlockIgnoresLaterExcerpts | src/fact_checker/search.py:38 | only the first two excerpts reach a block |
| Evidence.Blocks | src/fact_checker/search.py:36-48 | one block per record |
| Evidence.BlocksInOrder | src/fact_checker/search.py:37-48 | the `i`-th block is the block of the `i`-th record, numbered `i + 1` |
| Evidence.Digest | src/fact_checker/search.py:50 | the context is empty exactly when there are no records, and otherwise opens with `[Source 1]` |
| Evidence.DigestAppend | src/fact_checker/search.py:48-50 | one more record adds a blank line and its block, numbered after the others |
| Evidence.CutKeepsFront | src/fact_checker/search.py:51-52 | a text cut at `n` characters and marked keeps its first `n` characters and ends with the marker |
| Evidence.BuildEvidenceContext | src/fact_checker/search.py:34-53 | a context within budget is the joined blocks; a longer one is its first `max_chars` characters followed by the truncation marker |
| RateLimiting.Evict | src/fact_checker/rate_limiter.py:16-19 | eviction keeps a suffix of the history; everything dropped is strictly older than 60 seconds, and the oldest kept is not |
| RateLimiting.Admit | src/fact_checker/rate_limiter.py:21-25 | no wait below the budget; at the budget, the wait ends no earlier than 60.5 seconds after the oldest request, and a positive wait ends exactly then; `IndexError` exactly for an empty window and a budget of zero or less |
| RateLimiting.RateLimiter.constructor | src/fact_checker/rate_limiter.py:7-9 | a limiter with the given budget and an empty history |
| RateLimiting.RateLimiter.Default | src/fact_checker/rate_limiter.py:7-9 | a limiter with the free-tier budget of 10 and an empty history |
| RateLimiting.RateLimiter.WaitIfNeeded | src/fact_checker/rate_limiter.py:11-29 | returns the wait decided on the evicted history; the new history is the evicted one plus the time read after the wait, or only the evicted one when the call raises |
| RateLimiting.EvictKeepsBoundary | src/fact_checker/rate_limiter.py:18 | a request exactly 60 seconds old is kept |
| RateLimiting.EvictWithinBudget | src/fact_checker/rate_limiter.py:18-22 | under the admission bound and a clock that does not go back, eviction leaves at most the budget |
| RateLimiting.SortedStep | src/fact_checker/rate_limiter.py:18-28 | a sorted history stays sorted when the clock does not go back |
| RateLimiting.SuffixKeepsBound | src/fact_checker/rate_limiter.py:18-19 | dropping the oldest requests keeps the admission bound |
| RateLimiting.AppendedWindow | src/fact_checker/rate_limiter.py:22-28 | the request recorded after the wait has at most the budget of requests in the 60 seconds up to it |
| RateLimiting.AdmissionStep | src/fact_checker/rate_limiter.py:11-29 | one call keeps the history sorted and keeps the admission bound for every request; the history never exceeds the budget plus one |
| RateLimiting.TenRequestsAtOnce | src/fact_checker/rate_limiter.py:22-25 | ten requests at time 0 and a call 5 seconds later with the default budget wait 55.5 seconds |

## Left out

- The language model, the search service, HTTP fetching and HTML parsing are not modelled. Their outputs are parameters: the model's replies, the search results and the page text. That includes BeautifulSoup's choice of `article`/`main` paragraphs over all headings and paragraphs (`claims.py:47-54`).
- `Checker.CheckClaim`, `Pipeline.PipelineRaisesIff`: the search call (`search.py:15-21`), the model call (`llm.py:24`) and the client constructors can raise. For instance, a missing API key raises `RuntimeError` (`clients.py:12-15`, `clients.py:23-26`). The model treats these services as never failing, so "raises exactly when" counts only the errors of the code itself.
- The prompts are left out. The search query, result count and mode, and the excerpt budget go to the search service. `llm.py`, `clients.py`, `cli.py`, `web_app.py` and the rest of `config.py` are not part of this model.
- `json.loads` is a parameter, and numbers are reals. Python's `str()` of a JSON value is a parameter, constrained only by `Checker.StrFacts`.
- `Text.Lower` lower-cases ASCII letters only. Non-ASCII case mappings cannot turn a string into one of the three verdicts. Separately, the case-insensitive match of the fence's `json` tag also accepts `ſ` for `s` (`Fences.MatchesLetter`).
- `Text.Dedent` follows `textwrap.dedent` as it is before Python 3.14. The margin is the longest common prefix of the indents, and lines of only spaces and tabs are emptied.
- `Pipeline.FactCheckText`, `Pipeline.FactCheckUrl`: `max_claims` is a `nat`. A negative `max_claims`, whose Python slice drops claims from the end, is not modelled.
- `Evidence.BuildEvidenceContext`: `max_chars` is a `nat`. A negative budget, whose Python slice counts from the end, is not modelled.
- `Pipeline.Verifier`: the `i`-th call's reply is `answer(i)`. The search and the evidence context that feed the prompt are not tied to the reply.
- The progress callback is modelled as the list of reports it receives. What it does with them is not modelled.
- `Evidence.CleanBlock`, `Evidence.TwoExcerptsKeepIndent`: the exact layout of a block is proved only for values without line feeds. `Evidence.BlockStartsWithLabel` holds for every record.
- `RateLimiting.RateLimiter.WaitIfNeeded`: time is whole milliseconds instead of float seconds. The sleep itself is not modelled; the clock reading after it is a parameter. The lemmas assume the clock does not go back and that the sleep lasts at least the wait.
- The shared module-level limiter (`rate_limiter.py:33`) and concurrent callers are not modelled.
