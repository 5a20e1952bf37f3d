/**
 * Evidence from the web search: the records kept for each search result and
 * the numbered, dedented text blocks built from them for the verification
 * prompt, truncated to a character budget. The search service itself is a
 * parameter: its results come in as values.
 */
module Evidence {
  import opened Wrappers
  import opened Text

  /** One result as the search service returns it; an attribute it lacks or holds as None is `None`. */
  datatype SearchHit = SearchHit(url: string, title: Option<string>, publishDate: Option<string>, excerpts: Option<seq<string>>)

  /** The dictionary `search_web` keeps for a result. */
  datatype EvidenceRecord = EvidenceRecord(url: string, title: Option<string>, publishDate: Option<string>, excerpts: seq<string>)

  /**
   * `search_web` once the service has answered with `hits`: one record per
   * result, in the service's order, with the excerpts defaulting to `[]`.
   */
  method SearchWeb(hits: seq<SearchHit>) returns (records: seq<EvidenceRecord>)
    ensures |records| == |hits|
    ensures forall i :: 0 <= i < |hits| ==>
              && records[i].url == hits[i].url
              && records[i].title == hits[i].title
              && records[i].publishDate == hits[i].publishDate
              && records[i].excerpts == (if hits[i].excerpts.Some? then hits[i].excerpts.value else [])
  {
    records := [];
    for i := 0 to |hits|
      invariant |records| == i
      invariant forall j :: 0 <= j < i ==>
                  && records[j].url == hits[j].url
                  && records[j].title == hits[j].title
                  && records[j].publishDate == hits[j].publishDate
                  && records[j].excerpts == (if hits[j].excerpts.Some? then hits[j].excerpts.value else [])
    {
      var hit := hits[i];
      records := records + [EvidenceRecord(hit.url, hit.title, hit.publishDate, hit.excerpts.GetOr([]))];
    }
  }

  /** The indent of the template's lines in the source text. */
  const Pad: string := "        "

  /** The heading of the `k`-th block. */
  function Label(k: nat): string {
    "[Source " + NatToString(k) + "]"
  }

  /** `r['title'] or r['url']`: an absent or empty title shows the URL. */
  function TitleShown(r: EvidenceRecord): string {
    if r.title.Some? && r.title.value != "" then r.title.value else r.url
  }

  /** The formatted publish date: an absent date prints as `None`. */
  function DateShown(r: EvidenceRecord): string {
    if r.publishDate.Some? then r.publishDate.value else "None"
  }

  /** The first two excerpts, separated by a blank line. */
  function ExcerptsText(r: EvidenceRecord): string {
    Join("\n\n", Take(r.excerpts, 2))
  }

  /**
   * The triple-quoted template with the record's values substituted, before
   * dedenting: one element per line of the template, an empty first line
   * and a last line holding only the indent.
   */
  function TemplateLines(k: nat, r: EvidenceRecord): seq<string> {
    ["", Pad + Label(k), Pad + ("Title: " + TitleShown(r)), Pad + ("URL: " + r.url),
     Pad + ("Publish date: " + DateShown(r)), "", Pad + "Excerpts:", Pad + ExcerptsText(r), Pad]
  }

  /** `textwrap.dedent(template).strip()` for the `k`-th record: no whitespace at either end. */
  function Block(k: nat, r: EvidenceRecord): (b: string)
    ensures Trimmed(b)
  {
    Strip(Dedent(Join("\n", TemplateLines(k, r))))
  }

  /** The digits of a number hold no line feed. */
  lemma LabelOneLine(k: nat)
    ensures '\n' !in Label(k) && '\n' !in Pad + Label(k)
  {
    var d := NatToString(k);
    assert forall i :: 0 <= i < |d| ==> d[i] != '\n';
  }

  /**
   * Every block opens with its `[Source k]` heading, whatever the record
   * holds: the heading line is the first non-blank line of the template and
   * the dedent removes at most its indent.
   */
  lemma BlockStartsWithLabel(k: nat, r: EvidenceRecord)
    ensures StartsWith(Block(k, r), Label(k))
  {
    var front, tail := DedentedHeading(k, r);
    StripKeepsFront(front, Label(k), tail);
  }

  /** The dedented template: whitespace, the heading, then the rest. */
  lemma DedentedHeading(k: nat, r: EvidenceRecord) returns (front: string, tail: string)
    ensures forall i :: 0 <= i < |front| ==> IsSpace(front[i])
    ensures Dedent(Join("\n", TemplateLines(k, r))) == front + Label(k) + tail
  {
    var src := TemplateLines(k, r);
    JoinOpening(src);
    LabelOneLine(k);
    var p, rest := DedentKeepsLine(src[1], Pad, Label(k), Join("\n", src[2..]));
    front, tail := "\n" + p, "\n" + rest;
    assert forall i :: 0 <= i < |p| ==> IsIndentChar(p[i]);
  }

  /** The lines of a block laid out without indent: heading, title, URL, date, a blank line, `Excerpts:`. */
  function Heading(k: nat, r: EvidenceRecord): seq<string> {
    [Label(k), "Title: " + TitleShown(r), "URL: " + r.url, "Publish date: " + DateShown(r), "", "Excerpts:"]
  }

  /** The joined heading lines start with `[` and end with `:`, so stripping keeps them whole. */
  lemma HeadingTrimmed(k: nat, r: EvidenceRecord)
    ensures Join("\n", Heading(k, r)) != [] && Trimmed(Join("\n", Heading(k, r)))
  {
    var h := Heading(k, r);
    JoinStartsWith("\n", h);
    JoinAppend("\n", h[..5], "Excerpts:");
    assert h[..5] + ["Excerpts:"] == h;
    var j := Join("\n", h);
    assert j[0] == Label(k)[0] == '[';
    assert j[|j| - 1] == ':';
  }

  /** The template's lines are the heading lines and the excerpts, indented, between empty lines. */
  lemma TemplateIsPadded(k: nat, r: EvidenceRecord)
    ensures var text := [""] + Heading(k, r) + [ExcerptsText(r), ""];
            forall i :: 0 <= i < 9 ==> TemplateLines(k, r)[i] == Pad + text[i] || TemplateLines(k, r)[i] == text[i] == ""
  {
  }

  /** A line that starts visibly is not blank, indented or not. */
  lemma StartsVisibly(x: string)
    requires x != [] && !IsIndentChar(x[0])
    ensures !IsBlankLine(x) && !IsBlankLine(Pad + x)
  {
    PaddedLine(Pad, x);
    VisibleLine(x);
  }

  /** The heading lines are empty or start visibly, indented or not. */
  lemma HeadingVisible(k: nat, r: EvidenceRecord)
    ensures forall i :: 0 <= i < 6 ==> Heading(k, r)[i] == "" || !IsBlankLine(Heading(k, r)[i])
    ensures forall i :: 1 <= i < 7 ==> TemplateLines(k, r)[i] == "" || !IsBlankLine(TemplateLines(k, r)[i])
  {
    var h := Heading(k, r);
    var t := TemplateLines(k, r);
    assert h[0][0] == '[' && h[1][0] == 'T' && h[2][0] == 'U' && h[3][0] == 'P' && h[5][0] == 'E';
    StartsVisibly(h[0]);
    StartsVisibly(h[1]);
    StartsVisibly(h[2]);
    StartsVisibly(h[3]);
    StartsVisibly(h[5]);
    assert t[1] == Pad + h[0] && t[2] == Pad + h[1] && t[3] == Pad + h[2] && t[4] == Pad + h[3];
    assert t[5] == "" && t[6] == Pad + h[5];
  }

  /** Without line feeds in the values and with at most one excerpt, the dedent removes the whole indent. */
  lemma CleanDedent(k: nat, r: EvidenceRecord)
    requires '\n' !in TitleShown(r) && '\n' !in r.url && '\n' !in DateShown(r)
    requires |r.excerpts| <= 1 && '\n' !in ExcerptsText(r)
    ensures Dedent(Join("\n", TemplateLines(k, r))) ==
            "\n" + Join("\n", Heading(k, r) + [ClearBlank(ExcerptsText(r))]) + "\n"
  {
    var h := Heading(k, r);
    var e := ExcerptsText(r);
    var src := TemplateLines(k, r);
    LabelOneLine(k);
    assert forall i :: 0 <= i < 9 ==> '\n' !in src[i];
    TemplateIsPadded(k, r);
    VisibleLine(h[0]);
    DedentPadded(src, [""] + (h + [e]) + [""], Pad, 1);
    ClearBlanksFramed(h + [e], "");
    ClearBlanksSnoc(h, e);
    HeadingVisible(k, r);
    ClearBlanksVisible(h);
    JoinFramed(h + [ClearBlank(e)]);
  }

  lemma RegroupBlank(j: string)
    ensures "\n" + (j + "\n" + "") + "\n" == "\n" + j + ("\n" + "\n")
  {
  }

  /**
   * The excerpt as the block shows it: its trailing whitespace goes with the
   * final strip, and nothing is left when only whitespace was there.
   */
  function ShownExcerpt(e: string): (lines: seq<string>)
    ensures |lines| <= 1
    ensures lines != [] ==> 0 < |lines[0]| <= |e| && lines[0] == e[..|lines[0]|] && !IsSpace(e[|lines[0]| - 1])
    ensures forall i :: (if lines == [] then 0 else |lines[0]|) <= i < |e| ==> IsSpace(e[i])
  {
    SkipSpaceBackDrops(e, |e|);
    var end := SkipSpaceBack(e, |e|);
    if end == 0 then [] else [e[..end]]
  }

  /** A blank excerpt shows nothing and one that ends visibly shows whole. */
  lemma ShownCases(e: string)
    ensures IsBlankLine(e) ==> ShownExcerpt(e) == []
    ensures e != [] && !IsSpace(e[|e| - 1]) ==> ShownExcerpt(e) == [e]
  {
    if e != [] && !IsSpace(e[|e| - 1]) {
      SkipSpaceBackStops(e, |e|, |e|);
      assert e[..|e|] == e;
    }
  }

  /** Stripping the dedented last lines of a block leaves the heading text and the shown excerpt. */
  lemma StripShown(j: string, e: string)
    requires j != [] && Trimmed(j)
    ensures Strip("\n" + (j + "\n" + ClearBlank(e)) + "\n") ==
            if ShownExcerpt(e) == [] then j else j + "\n" + ShownExcerpt(e)[0]
  {
    var c := ClearBlank(e);
    var shown := ShownExcerpt(e);
    if IsBlankLine(e) {
      assert shown == [];
      RegroupBlank(j);
      StripSurrounded("\n", j, "\n" + "\n");
    } else if shown == [] {
      assert "\n" + (j + "\n" + e) + "\n" == "\n" + j + ("\n" + e + "\n");
      StripSurrounded("\n", j, "\n" + e + "\n");
    } else {
      var t := shown[0];
      var u := e[|t|..];
      assert e == t + u;
      var core := j + "\n" + t;
      assert core[0] == j[0] && core[|core| - 1] == t[|t| - 1];
      assert "\n" + (j + "\n" + e) + "\n" == "\n" + core + (u + "\n");
      StripSurrounded("\n", core, u + "\n");
    }
  }

  /**
   * With no line feed in the values and at most one excerpt, the block is
   * the heading lines and, on a line of its own, the excerpt without its
   * trailing whitespace (nothing after `Excerpts:` when the excerpt is
   * missing or all whitespace).
   */
  lemma CleanBlock(k: nat, r: EvidenceRecord)
    requires '\n' !in TitleShown(r) && '\n' !in r.url && '\n' !in DateShown(r)
    requires |r.excerpts| <= 1 && '\n' !in ExcerptsText(r)
    ensures IsBlankLine(ExcerptsText(r)) ==> Block(k, r) == Join("\n", Heading(k, r))
    ensures ExcerptsText(r) != [] && !IsSpace(ExcerptsText(r)[|ExcerptsText(r)| - 1]) ==>
              Block(k, r) == Join("\n", Heading(k, r) + [ExcerptsText(r)])
    ensures Block(k, r) == Join("\n", Heading(k, r) + ShownExcerpt(ExcerptsText(r)))
  {
    var h := Heading(k, r);
    var e := ExcerptsText(r);
    var shown := ShownExcerpt(e);
    var j := Join("\n", h);
    assert Block(k, r) == if shown == [] then j else j + "\n" + shown[0] by {
      CleanDedent(k, r);
      JoinAppend("\n", h, ClearBlank(e));
      HeadingTrimmed(k, r);
      StripShown(j, e);
    }
    if shown == [] {
      assert h + shown == h;
    } else {
      JoinAppend("\n", h, shown[0]);
    }
    ShownCases(e);
  }

  /** The excerpts text of two or more excerpts. */
  lemma TwoExcerptsText(r: EvidenceRecord)
    requires |r.excerpts| >= 2
    ensures ExcerptsText(r) == r.excerpts[0] + "\n\n" + r.excerpts[1]
  {
    var two := Take(r.excerpts, 2);
    assert two == [r.excerpts[0], r.excerpts[1]];
    assert two[1..] == [r.excerpts[1]];
    assert ExcerptsText(r) == Join("\n\n", two);
    assert Join("\n\n", two) == two[0] + "\n\n" + Join("\n\n", two[1..]);
  }

  /**
   * The template's lines once the two excerpts are split at their line
   * feeds: the excerpts' lines are the only ones without the indent.
   */
  function SplitTemplate(k: nat, r: EvidenceRecord): seq<string>
    requires |r.excerpts| >= 2
  {
    TemplateLines(k, r)[..7] + [Pad + r.excerpts[0], "", r.excerpts[1], Pad]
  }

  lemma SplitTemplateJoin(k: nat, r: EvidenceRecord)
    requires |r.excerpts| >= 2
    ensures Join("\n", SplitTemplate(k, r)) == Join("\n", TemplateLines(k, r))
  {
    var src := TemplateLines(k, r);
    var e0, e1 := r.excerpts[0], r.excerpts[1];
    TwoExcerptsText(r);
    var front := src[..7];
    var last := [Pad + e0, "", e1, Pad];
    JoinConcat("\n", front, [src[7], Pad]);
    assert src == front + [src[7], Pad];
    JoinConcat("\n", front, last);
    JoinFrom("\n", last, 0);
    JoinFrom("\n", last, 1);
    JoinFrom("\n", last, 2);
    assert last[0..] == last;
  }

  /**
   * With two excerpts, the second starting at the left edge, the dedent
   * removes no indent: it only empties the last line, which held the indent
   * alone.
   */
  lemma TwoExcerptsDedent(k: nat, r: EvidenceRecord)
    requires '\n' !in TitleShown(r) && '\n' !in r.url && '\n' !in DateShown(r)
    requires |r.excerpts| >= 2 && '\n' !in r.excerpts[0] && '\n' !in r.excerpts[1]
    requires !IsBlankLine(r.excerpts[0])
    requires r.excerpts[1] != [] && !IsIndentChar(r.excerpts[1][0])
    ensures Dedent(Join("\n", TemplateLines(k, r))) ==
            "\n" + Join("\n", TemplateLines(k, r)[1..7] + [Pad + r.excerpts[0], "", r.excerpts[1]]) + "\n"
  {
    var all := SplitTemplate(k, r);
    var body := TemplateLines(k, r)[1..7] + [Pad + r.excerpts[0], "", r.excerpts[1]];
    assert all == [""] + body + [Pad];
    SplitTemplateJoin(k, r);
    LabelOneLine(k);
    assert forall i :: 0 <= i < |all| ==> '\n' !in all[i];
    DedentUnindented(all, 9);
    ClearBlanksFramed(body, Pad);
    HeadingVisible(k, r);
    PaddedLine(Pad, r.excerpts[0]);
    VisibleLine(r.excerpts[1]);
    ClearBlanksVisible(body);
    JoinFramed(body);
  }

  /**
   * Two excerpts are joined by an empty line, and when the second one starts
   * at the left edge the template's lines no longer share an indent: the
   * dedent removes no indent, and the title, URL, date, `Excerpts:` and
   * first excerpt lines keep their eight spaces. The final strip removes
   * only the heading line's indent and the empty lines around the block.
   */
  lemma TwoExcerptsKeepIndent(k: nat, r: EvidenceRecord)
    requires '\n' !in TitleShown(r) && '\n' !in r.url && '\n' !in DateShown(r)
    requires |r.excerpts| >= 2 && '\n' !in r.excerpts[0] && '\n' !in r.excerpts[1]
    requires !IsBlankLine(r.excerpts[0])
    requires r.excerpts[1] != [] && !IsIndentChar(r.excerpts[1][0]) && !IsSpace(r.excerpts[1][|r.excerpts[1]| - 1])
    ensures Block(k, r) ==
              Join("\n", [Label(k)] + TemplateLines(k, r)[2..7] + [Pad + r.excerpts[0], "", r.excerpts[1]])
  {
    var body := TemplateLines(k, r)[1..7] + [Pad + r.excerpts[0], "", r.excerpts[1]];
    var rest := body[1..];
    assert [Label(k)] + TemplateLines(k, r)[2..7] + [Pad + r.excerpts[0], "", r.excerpts[1]] == [Label(k)] + rest;
    TwoExcerptsDedent(k, r);
    JoinFrom("\n", body, 0);
    assert body[0..] == body;
    var core := Join("\n", [Label(k)] + rest);
    JoinFrom("\n", [Label(k)] + rest, 0);
    assert ([Label(k)] + rest)[0..] == [Label(k)] + rest && ([Label(k)] + rest)[1..] == rest;
    RegroupIndented(Pad, Label(k), Join("\n", rest));
    JoinAppend("\n", rest[..7], r.excerpts[1]);
    assert rest[..7] + [r.excerpts[1]] == rest;
    assert core[0] == '[';
    assert forall i :: 0 <= i < |"\n" + Pad| ==> IsSpace(("\n" + Pad)[i]);
    StripSurrounded("\n" + Pad, core, "\n");
  }

  lemma RegroupIndented(pad: string, x: string, tail: string)
    ensures "\n" + (pad + x + "\n" + tail) + "\n" == ("\n" + pad) + (x + "\n" + tail) + "\n"
  {
  }

  /** Only the first two excerpts of a record reach its block. */
  lemma BlockIgnoresLaterExcerpts(k: nat, r1: EvidenceRecord, r2: EvidenceRecord)
    requires r1.url == r2.url && r1.title == r2.title && r1.publishDate == r2.publishDate
    requires Take(r1.excerpts, 2) == Take(r2.excerpts, 2)
    ensures Block(k, r1) == Block(k, r2)
  {
  }

  /** The blocks of the records, numbered from 1 in the records' order. */
  function Blocks(records: seq<EvidenceRecord>): (bs: seq<string>)
    ensures |bs| == |records|
  {
    if records == [] then []
    else Blocks(records[..|records| - 1]) + [Block(|records|, records[|records| - 1])]
  }

  /** The `i`-th block (from 0) is the block of the `i`-th record, headed `[Source i+1]`. */
  lemma {:induction false} BlocksInOrder(records: seq<EvidenceRecord>, i: nat)
    requires i < |records|
    ensures Blocks(records)[i] == Block(i + 1, records[i])
  {
    if i < |records| - 1 {
      var front := records[..|records| - 1];
      BlocksInOrder(front, i);
      assert front[i] == records[i];
    }
  }

  /**
   * The untruncated context: the blocks separated by blank lines. It is empty
   * exactly when there are no records, and otherwise opens with `[Source 1]`.
   */
  function Digest(records: seq<EvidenceRecord>): (r: string)
    ensures r == "" <==> records == []
    ensures records != [] ==> StartsWith(r, Label(1))
  {
    var bs := Blocks(records);
    if records == [] then ""
    else
      BlockStartsWithLabel(1, records[0]);
      BlocksInOrder(records, 0);
      JoinStartsWith("\n\n", bs);
      StartsWithTrans(Join("\n\n", bs), bs[0], Label(1));
      Join("\n\n", bs)
  }

  /** The digest joins all the blocks, none when there are no records. */
  lemma DigestIsJoin(records: seq<EvidenceRecord>)
    ensures Digest(records) == Join("\n\n", Blocks(records))
  {
  }

  /** One more record adds a blank line and its block, numbered after the others. */
  lemma DigestAppend(records: seq<EvidenceRecord>, r: EvidenceRecord)
    requires records != []
    ensures Digest(records + [r]) == Digest(records) + "\n\n" + Block(|records| + 1, r)
  {
    assert (records + [r])[..|records|] == records;
    JoinAppend("\n\n", Blocks(records), Block(|records| + 1, r));
  }

  /** Appended to a context cut at the budget. */
  const TruncationMarker: string := "\n\n[Context truncated for length]"

  /** A text cut at `n` characters and marked keeps its first `n` characters and ends with the marker. */
  lemma CutKeepsFront(text: string, n: nat)
    requires n < |text|
    ensures var cut := text[..n] + TruncationMarker;
            |cut| == n + |TruncationMarker| && StartsWith(cut, text[..n]) && EndsWith(cut, TruncationMarker)
  {
    var cut := text[..n] + TruncationMarker;
    assert cut[..n] == text[..n];
    assert cut[n..] == TruncationMarker;
  }

  /**
   * `build_evidence_context`: a context within `maxChars` characters is the
   * digest itself; a longer one keeps its first `maxChars` characters and
   * ends with the truncation marker.
   */
  method BuildEvidenceContext(records: seq<EvidenceRecord>, maxChars: nat) returns (context: string)
    ensures |Digest(records)| <= maxChars ==> context == Digest(records)
    ensures |Digest(records)| > maxChars ==>
              && |context| == maxChars + |TruncationMarker|
              && StartsWith(context, Digest(records)[..maxChars])
              && EndsWith(context, TruncationMarker)
  {
    var blocks: seq<string> := [];
    for idx := 0 to |records|
      invariant blocks == Blocks(records[..idx])
    {
      assert records[..idx + 1][..idx] == records[..idx];
      blocks := blocks + [Block(idx + 1, records[idx])];
    }
    assert records[..|records|] == records;
    DigestIsJoin(records);
    context := Join("\n\n", blocks);
    if |context| > maxChars {
      CutKeepsFront(context, maxChars);
      context := context[..maxChars] + TruncationMarker;
    }
  }
}
