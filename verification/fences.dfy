/**
 * Removing the markdown code fence a language model wraps around its JSON
 * reply. Claim extraction and claim verification apply the same two regular
 * expression substitutions to the stripped reply before `json.loads`.
 */
module Fences {
  import opened Text

  const Fence: string := "```"

  /** Three backticks start at index `i` of `s`. */
  predicate FenceAt(s: string, i: nat) {
    i + 3 <= |s| && s[i] == '`' && s[i + 1] == '`' && s[i + 2] == '`'
  }

  /**
   * `c` matches the lower-case letter `letter` of a case-insensitive pattern:
   * either case, and for `s` also the long s (U+017F), which Python's
   * `re.IGNORECASE` folds onto it.
   */
  predicate MatchesLetter(c: char, letter: char) {
    LowerChar(c) == letter || (letter == 's' && c == '\U{017f}')
  }

  /** The optional `json` tag of the opening fence starts at index `j` of `s`. */
  predicate JsonTagAt(s: string, j: nat) {
    && j + 4 <= |s|
    && MatchesLetter(s[j], 'j') && MatchesLetter(s[j + 1], 's')
    && MatchesLetter(s[j + 2], 'o') && MatchesLetter(s[j + 3], 'n')
  }

  /** A tag that the opening-fence pattern removes. */
  predicate IsJsonTag(tag: string) {
    |tag| == 4 && JsonTagAt(tag, 0)
  }

  /**
   * Where the text after `^\s*```(?:json)?\s*` begins: 0 when `s` does not
   * open with a fence, otherwise just past the leading whitespace, the fence,
   * the tag if present and the whitespace after them.
   */
  function OpeningFenceEnd(s: string): (n: nat)
    ensures n <= |s|
    ensures n == 0 || n == |s| || !IsSpace(s[n])
  {
    var i := SkipSpace(s, 0, |s|);
    if !FenceAt(s, i) then 0
    else
      var k := if JsonTagAt(s, i + 3) then i + 7 else i + 3;
      SkipSpace(s, k, |s|)
  }

  /**
   * `re.sub(r"^\s*```(?:json)?\s*", "", s, flags=re.IGNORECASE)`: a suffix
   * of `s`, shorter only when a fence follows the leading whitespace, and
   * then without that fence.
   */
  function StripLeadingFence(s: string): (r: string)
    ensures |r| <= |s| && r == s[|s| - |r|..]
    ensures |r| < |s| ==> FenceAt(s, SkipSpace(s, 0, |s|)) && SkipSpace(s, 0, |s|) + 3 <= |s| - |r|
  {
    s[OpeningFenceEnd(s)..]
  }

  /**
   * Where `\s*```\s*$` matches, the leftmost place it can: `|s|` when `s`
   * does not close with a fence, otherwise the start of the whitespace in
   * front of the last fence.
   */
  function ClosingFenceStart(s: string): (n: nat)
    ensures n <= |s|
    ensures n == 0 || n == |s| || !IsSpace(s[n - 1])
  {
    var j := SkipSpaceBack(s, |s|);
    if !(j >= 3 && FenceAt(s, j - 3)) then |s|
    else SkipSpaceBack(s, j - 3)
  }

  /**
   * `re.sub(r"\s*```\s*$", "", s)`: a prefix of `s`, shorter only when a
   * fence precedes the trailing whitespace, and then without that fence.
   */
  function StripTrailingFence(s: string): (r: string)
    ensures |r| <= |s| && r == s[..|r|]
    ensures |r| < |s| ==> SkipSpaceBack(s, |s|) >= 3 && FenceAt(s, SkipSpaceBack(s, |s|) - 3) && |r| <= SkipSpaceBack(s, |s|) - 3
  {
    s[..ClosingFenceStart(s)]
  }

  /** Removing the opening fence from a text without surrounding whitespace leaves none. */
  lemma LeadingFenceKeepsTrimmed(s: string)
    requires Trimmed(s)
    ensures Trimmed(StripLeadingFence(s))
  {
  }

  /** Removing the closing fence from a text without surrounding whitespace leaves none. */
  lemma TrailingFenceKeepsTrimmed(s: string)
    requires Trimmed(s)
    ensures Trimmed(StripTrailingFence(s))
  {
  }

  /**
   * The text handed to `json.loads`: the reply stripped, then unfenced at
   * both ends. It never has surrounding whitespace.
   */
  function StripFences(reply: string): (r: string)
    ensures |r| <= |reply|
    ensures Trimmed(r)
  {
    var s := Strip(reply);
    LeadingFenceKeepsTrimmed(s);
    TrailingFenceKeepsTrimmed(StripLeadingFence(s));
    StripTrailingFence(StripLeadingFence(s))
  }

  /** A reply that neither opens nor closes with a fence is only stripped. */
  lemma UnfencedReply(reply: string)
    requires !FenceAt(Strip(reply), 0) && !EndsWith(Strip(reply), Fence)
    ensures StripFences(reply) == Strip(reply)
  {
    var s := Strip(reply);
    SkipSpaceStops(s, 0, |s|, 0);
    SkipSpaceBackStops(s, |s|, |s|);
    if |s| >= 3 {
      assert s[|s| - 3..] == [s[|s| - 3], s[|s| - 2], s[|s| - 1]];
    }
  }

  /**
   * An opening fence, an optional tag, at least one whitespace character
   * (the line feed that ends the fence line) and any further whitespace are
   * removed together, and nothing else is.
   */
  lemma LeadingFenceRemoved(tag: string, ws: string, rest: string)
    requires tag == "" || IsJsonTag(tag)
    requires ws != [] && forall i :: 0 <= i < |ws| ==> IsSpace(ws[i])
    requires rest == [] || !IsSpace(rest[0])
    ensures StripLeadingFence(Fence + tag + ws + rest) == rest
  {
    var s := Fence + tag + ws + rest;
    SkipSpaceStops(s, 0, |s|, 0);
    assert FenceAt(s, 0);
    var k := 3 + |tag|;
    if tag == "" {
      assert !JsonTagAt(s, 3) by { assert IsSpace(s[3]); }
    } else {
      assert JsonTagAt(s, 3) by { assert s[3..7] == tag; }
    }
    SkipSpaceStops(s, k, |s|, k + |ws|);
    assert s[k + |ws|..] == rest;
  }

  /** A closing fence, with only whitespace in front of it, is removed together with that whitespace. */
  lemma TrailingFenceRemoved(front: string, ws: string)
    requires front == [] || !IsSpace(front[|front| - 1])
    requires forall i :: 0 <= i < |ws| ==> IsSpace(ws[i])
    ensures StripTrailingFence(front + ws + Fence) == front
  {
    var s := front + ws + Fence;
    SkipSpaceBackStops(s, |s|, |s|);
    assert FenceAt(s, |s| - 3);
    SkipSpaceBackStops(s, |s| - 3, |front|);
    assert s[..|front|] == front;
  }

  /**
   * A body without surrounding whitespace, fenced on lines of its own with an
   * optional `json` tag in any letter case, comes back unchanged.
   */
  lemma FencedReply(tag: string, body: string)
    requires tag == "" || IsJsonTag(tag)
    requires Trimmed(body)
    ensures StripFences(Fence + tag + "\n" + body + "\n" + Fence) == body
  {
    var reply := Fence + tag + "\n" + body + "\n" + Fence;
    StripFixed(reply);
    if body == [] {
      assert reply == Fence + tag + "\n\n" + Fence;
      LeadingFenceRemoved(tag, "\n\n", Fence);
      TrailingFenceRemoved("", "");
      assert "" + "" + Fence == Fence;
    } else {
      assert reply == Fence + tag + "\n" + (body + "\n" + Fence);
      LeadingFenceRemoved(tag, "\n", body + "\n" + Fence);
      TrailingFenceRemoved(body, "\n");
    }
  }
}
