/**
  The completion prompt built in `handleSend` (ChatBox.tsx): a fixed header,
  one `Page p: text` block per ranked chunk separated by blank lines, then the
  question after `Q: `.
 */
module Prompt {
  import Text
  import Upload
  import Ranking

  const Header: string := "Use the following context to answer:\n\n"
  const BlockSeparator: string := "\n\n"
  const QuestionMarker: string := "\n\nQ: "

  /** `Page ${c.page}: ${c.text}` with the page as a decimal number. */
  function PageBlock(c: Ranking.ScoredChunk): (b: string)
    ensures |b| == 7 + |Text.NatToDecimal(c.chunk.page)| + |c.chunk.text|
    ensures b[..5] == "Page "
  {
    PageLabel(c.chunk.page) + c.chunk.text
  }

  function Blocks(top: seq<Ranking.ScoredChunk>): (bs: seq<string>)
    ensures |bs| == |top|
    ensures forall k :: 0 <= k < |top| ==> bs[k] == PageBlock(top[k])
  {
    seq(|top|, k requires 0 <= k < |top| => PageBlock(top[k]))
  }

  function BuildPrompt(top: seq<Ranking.ScoredChunk>, question: string): (p: string)
    ensures |Header| <= |p| && p[..|Header|] == Header
    ensures |top| == 0 ==> p == Header + QuestionMarker + question
  {
    Header + Text.Join(BlockSeparator, Blocks(top)) + QuestionMarker + question
  }

  /**
    The prompt ends with a blank line, `Q: ` and the untrimmed question, and
    its length is the header, the blocks, one blank line between neighbouring
    blocks and that ending: there is nothing else in it.
   */
  lemma PromptShape(top: seq<Ranking.ScoredChunk>, question: string)
    ensures var p := BuildPrompt(top, question);
      && |QuestionMarker| + |question| <= |p|
      && p[|p| - |question| - |QuestionMarker|..] == QuestionMarker + question
    ensures |top| > 0 ==>
      |BuildPrompt(top, question)|
      == |Header| + Text.TotalLength(Blocks(top)) + (|top| - 1) * |BlockSeparator| + |QuestionMarker| + |question|
  {
    var joined := Text.Join(BlockSeparator, Blocks(top));
    if |top| > 0 {
      Text.JoinLength(BlockSeparator, Blocks(top));
    }
    var p := BuildPrompt(top, question);
    assert p == (Header + joined) + (QuestionMarker + question);
  }

  /** Where the block of the `k`-th ranked chunk starts in the prompt. */
  function BlockOffset(top: seq<Ranking.ScoredChunk>, k: nat): nat
    requires k < |top|
  {
    |Header| + Text.ItemOffset(BlockSeparator, Blocks(top), k)
  }

  /**
    The prompt holds the block of every ranked chunk intact at its offset, and
    every block but the first comes right after a blank line.
   */
  lemma PromptHoldsBlock(top: seq<Ranking.ScoredChunk>, question: string, k: nat)
    requires k < |top|
    ensures BlockOffset(top, k) + |PageBlock(top[k])| <= |BuildPrompt(top, question)|
    ensures BuildPrompt(top, question)[BlockOffset(top, k)..BlockOffset(top, k) + |PageBlock(top[k])|] == PageBlock(top[k])
    ensures k > 0 ==> BuildPrompt(top, question)[BlockOffset(top, k) - 2..BlockOffset(top, k)] == BlockSeparator
  {
    BlockInPrompt(top, question, k);
    if k > 0 {
      BlankLineBeforeBlock(top, question, k);
    }
  }

  lemma BlockInPrompt(top: seq<Ranking.ScoredChunk>, question: string, k: nat)
    requires k < |top|
    ensures BlockOffset(top, k) + |PageBlock(top[k])| <= |BuildPrompt(top, question)|
    ensures BuildPrompt(top, question)[BlockOffset(top, k)..BlockOffset(top, k) + |PageBlock(top[k])|] == PageBlock(top[k])
  {
    var bs := Blocks(top);
    var joined := Text.Join(BlockSeparator, bs);
    var o := Text.ItemOffset(BlockSeparator, bs, k);
    Text.JoinPlacesItem(BlockSeparator, bs, k);
    assert BuildPrompt(top, question) == Header + joined + (QuestionMarker + question);
    SliceInMiddle(Header, joined, QuestionMarker + question, o, |bs[k]|);
  }

  lemma BlankLineBeforeBlock(top: seq<Ranking.ScoredChunk>, question: string, k: nat)
    requires 0 < k < |top|
    ensures 2 <= BlockOffset(top, k) <= |BuildPrompt(top, question)|
    ensures BuildPrompt(top, question)[BlockOffset(top, k) - 2..BlockOffset(top, k)] == BlockSeparator
  {
    var bs := Blocks(top);
    var joined := Text.Join(BlockSeparator, bs);
    var o := Text.ItemOffset(BlockSeparator, bs, k);
    Text.JoinPlacesItem(BlockSeparator, bs, k);
    assert BuildPrompt(top, question) == Header + joined + (QuestionMarker + question);
    SliceInMiddle(Header, joined, QuestionMarker + question, o - 2, 2);
  }

  /** Block `k + 1` starts one blank line after block `k` ends: the blocks follow the ranked order, not page order. */
  lemma BlocksFollowRanking(top: seq<Ranking.ScoredChunk>, k: nat)
    requires k + 1 < |top|
    ensures BlockOffset(top, k) + |PageBlock(top[k])| + |BlockSeparator| == BlockOffset(top, k + 1)
  {
    Text.ItemOffsetsIncrease(BlockSeparator, Blocks(top), k);
  }

  lemma SliceInMiddle(a: string, b: string, c: string, o: nat, n: nat)
    requires o + n <= |b|
    ensures (a + b + c)[|a| + o..|a| + o + n] == b[o..o + n]
  {
  }

  /** Each block names its page: the digits after `Page ` read back as the chunk's page number. */
  lemma PageBlockNamesPage(c: Ranking.ScoredChunk)
    ensures var d := Text.NatToDecimal(c.chunk.page);
      && |PageBlock(c)| == 7 + |d| + |c.chunk.text|
      && PageBlock(c)[..5] == "Page "
      && PageBlock(c)[5..5 + |d|] == d
      && PageBlock(c)[5 + |d|..7 + |d|] == ": "
      && PageBlock(c)[7 + |d|..] == c.chunk.text
      && Text.DecimalValue(d) == c.chunk.page
  {
    Text.DecimalRoundTrip(c.chunk.page);
  }

  /** Chunks from different pages get different labels. */
  lemma PageLabelsDistinguishPages(c1: Ranking.ScoredChunk, c2: Ranking.ScoredChunk)
    requires c1.chunk.page != c2.chunk.page
    ensures PageLabel(c1.chunk.page) != PageLabel(c2.chunk.page)
  {
    var d1 := Text.NatToDecimal(c1.chunk.page);
    var d2 := Text.NatToDecimal(c2.chunk.page);
    Text.NatToDecimalInjective(c1.chunk.page, c2.chunk.page);
    assert d1 == PageLabel(c1.chunk.page)[5..|PageLabel(c1.chunk.page)| - 2];
    assert d2 == PageLabel(c2.chunk.page)[5..|PageLabel(c2.chunk.page)| - 2];
  }

  /** The label part of a block, `Page ${page}: `. */
  function PageLabel(page: nat): string {
    "Page " + Text.NatToDecimal(page) + ": "
  }

  // As written, the chunk's page is the pdf.js page object, which a template
  // literal renders with the default object string conversion.

  /** `${page}` for a page object: the default `Object.prototype.toString` result. */
  function ObjectToString(p: Upload.PageProxy): string {
    "[object Object]"
  }

  function PageLabelAsWritten(c: Upload.RawChunk): string {
    "Page " + ObjectToString(c.page) + ": "
  }

  /** As written, every page gets the same label, so the prompt cannot tell pages apart. */
  lemma AsWrittenLabelsCollide(doc: Upload.PdfDocument, i: nat, j: nat)
    requires i < j < doc.NumPages()
    ensures Upload.RawChunks(doc)[i].page != Upload.RawChunks(doc)[j].page
    ensures PageLabelAsWritten(Upload.RawChunks(doc)[i]) == PageLabelAsWritten(Upload.RawChunks(doc)[j])
    ensures PageLabelAsWritten(Upload.RawChunks(doc)[i]) == "Page [object Object]: "
  {
    var raw := Upload.RawChunks(doc);
    assert raw[i].page.pageNumber == i + 1 && raw[j].page.pageNumber == j + 1;
    AsWrittenLabel(raw[i]);
    AsWrittenLabel(raw[j]);
  }

  /** Whatever the page object, its label reads `Page [object Object]: `. */
  lemma AsWrittenLabel(c: Upload.RawChunk)
    ensures PageLabelAsWritten(c) == "Page [object Object]: "
  {
  }

  /** With the page index stored, different pages of one document get different labels. */
  lemma CorrectedLabelsDiffer(doc: Upload.PdfDocument, i: nat, j: nat)
    requires i < j < doc.NumPages()
    ensures PageLabel(Upload.Chunks(doc)[i].page) != PageLabel(Upload.Chunks(doc)[j].page)
    ensures PageLabel(Upload.Chunks(doc)[i].page) == "Page " + Text.NatToDecimal(i + 1) + ": "
  {
    var c1 := Ranking.ScoredChunk(Upload.Chunks(doc)[i], 0);
    var c2 := Ranking.ScoredChunk(Upload.Chunks(doc)[j], 0);
    PageLabelsDistinguishPages(c1, c2);
  }
}
