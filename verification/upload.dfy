/**
  The chunk-building half of `handleUpload` in PDFUpload.tsx. The pdf.js
  document is given as its per-page text content: for page `i` (1-based),
  the `str` of each text item in the order `getTextContent` lists them.
 */
module Upload {
  import opened Wrappers
  import Text

  datatype PdfDocument = PdfDocument(pages: seq<seq<string>>) {
    function NumPages(): nat { |pages| }
  }

  /** A unit of document text tagged with the 1-based page it came from. */
  datatype Chunk = Chunk(text: string, page: nat)

  /** What a finished upload hands to the app: the chunks and the page count. */
  datatype Loaded = Loaded(chunks: seq<Chunk>, numPages: nat)

  /** A page's text: its item strings joined by single spaces. */
  function PageText(items: seq<string>): (t: string)
    ensures |items| == 0 ==> t == ""
    ensures |items| > 0 ==> |t| == Text.TotalLength(items) + |items| - 1
    ensures forall k :: 0 <= k < |items| ==>
      Text.ItemOffset(" ", items, k) + |items[k]| <= |t|
      && t[Text.ItemOffset(" ", items, k)..Text.ItemOffset(" ", items, k) + |items[k]|] == items[k]
    ensures forall k :: 0 < k < |items| ==>
      0 < Text.ItemOffset(" ", items, k) <= |t| && t[Text.ItemOffset(" ", items, k) - 1] == ' '
  {
    Text.JoinPlacesAll(" ", items);
    SpaceBeforeEachItem(items);
    if |items| > 0 then Text.JoinLength(" ", items); Text.Join(" ", items) else Text.Join(" ", items)
  }

  /** In a join with " ", each item but the first comes right after a space. */
  lemma SpaceBeforeEachItem(items: seq<string>)
    ensures forall k :: 0 < k < |items| ==>
      0 < Text.ItemOffset(" ", items, k) <= |Text.Join(" ", items)|
      && Text.Join(" ", items)[Text.ItemOffset(" ", items, k) - 1] == ' '
  {
    forall k | 0 < k < |items|
      ensures 0 < Text.ItemOffset(" ", items, k) <= |Text.Join(" ", items)|
      ensures Text.Join(" ", items)[Text.ItemOffset(" ", items, k) - 1] == ' '
    {
      Text.JoinPlacesItem(" ", items, k);
      var o := Text.ItemOffset(" ", items, k);
      assert Text.Join(" ", items)[o - 1..o] == " ";
    }
  }

  /** The chunk list after the loop has handled pages `1..n`. */
  function ChunksUpTo(doc: PdfDocument, n: nat): (chunks: seq<Chunk>)
    requires n <= doc.NumPages()
    ensures |chunks| == n
    ensures forall i :: 0 <= i < n ==> chunks[i].page == i + 1
    ensures forall i :: 0 <= i < n ==> chunks[i].text == PageText(doc.pages[i])
  {
    if n == 0 then []
    else
      var rest := ChunksUpTo(doc, n - 1);
      var last := Chunk(PageText(doc.pages[n - 1]), n);
      var chunks := rest + [last];
      assert chunks[n - 1] == last;
      assert forall i :: 0 <= i < n - 1 ==> chunks[i] == rest[i];
      chunks
  }

  /** The finished loop: one chunk per page, numbered from 1, each holding that page's text. */
  function Chunks(doc: PdfDocument): (chunks: seq<Chunk>)
    ensures |chunks| == doc.NumPages()
    ensures PagesWithin(chunks, doc.NumPages())
    ensures forall i :: 0 <= i < |chunks| ==> chunks[i] == Chunk(PageText(doc.pages[i]), i + 1)
  {
    ChunksUpTo(doc, doc.NumPages())
  }

  /** Every chunk names a page that exists, so every page number drawn from it is a valid viewer page. */
  predicate PagesWithin(chunks: seq<Chunk>, total: nat) {
    forall i :: 0 <= i < |chunks| ==> 1 <= chunks[i].page <= total
  }

  /** No file selected: nothing happens. Otherwise one chunk per page and the page count. */
  function HandleUpload(file: Option<PdfDocument>): (r: Option<Loaded>)
    ensures file.None? <==> r.None?
    ensures r.Some? ==> r.value.numPages == file.value.NumPages()
    ensures r.Some? ==> |r.value.chunks| == r.value.numPages
    ensures r.Some? ==> PagesWithin(r.value.chunks, r.value.numPages)
    ensures r.Some? ==> forall i :: 0 <= i < |r.value.chunks| ==>
      r.value.chunks[i] == Chunk(PageText(file.value.pages[i]), i + 1)
  {
    match file
    case None => None
    case Some(doc) => Some(Loaded(Chunks(doc), doc.NumPages()))
  }

  /** The chunks follow page order: their page numbers strictly increase along the list. */
  lemma ChunksFollowPages(doc: PdfDocument)
    ensures forall i, j :: 0 <= i < j < doc.NumPages() ==> Chunks(doc)[i].page < Chunks(doc)[j].page
  {
  }

  /** A page without text items still yields a chunk, with empty text; a page with one item yields that item. */
  lemma PageTextEdgeCases(items: seq<string>)
    ensures |items| == 0 ==> PageText(items) == ""
    ensures |items| == 1 ==> PageText(items) == items[0]
  {
  }

  /** A document without pages gives an empty chunk list. */
  lemma EmptyDocumentHasNoChunks(doc: PdfDocument)
    requires doc.NumPages() == 0
    ensures Chunks(doc) == []
  {
  }

  /** Each item's string appears intact in its page's chunk, one space after the previous item. */
  lemma ChunkKeepsItems(doc: PdfDocument, i: nat, k: nat)
    requires i < doc.NumPages() && k < |doc.pages[i]|
    ensures var t := Chunks(doc)[i].text; var o := Text.ItemOffset(" ", doc.pages[i], k);
      && o + |doc.pages[i][k]| <= |t|
      && t[o..o + |doc.pages[i][k]|] == doc.pages[i][k]
      && (k > 0 ==> t[o - 1] == ' ')
  {
    var items := doc.pages[i];
    assert Chunks(doc)[i].text == Text.Join(" ", items);
    Text.JoinPlacesItem(" ", items, k);
    if k > 0 {
      var o := Text.ItemOffset(" ", items, k);
      assert Text.Join(" ", items)[o - 1..o] == " ";
    }
  }

  // The loop as written pushes `{ text, page }` where `page` is the object
  // `pdf.getPage(i)` resolved to, not the number `i`.

  /** The pdf.js page proxy for one page; it knows its own page number. */
  datatype PageProxy = PageProxy(pageNumber: nat)

  datatype RawChunk = RawChunk(text: string, page: PageProxy)

  /** The chunk list exactly as the loop builds it, page objects included. */
  function RawChunks(doc: PdfDocument): (raw: seq<RawChunk>)
    ensures |raw| == doc.NumPages()
    ensures forall i :: 0 <= i < |raw| ==> raw[i].page.pageNumber == i + 1
  {
    seq(doc.NumPages(), i requires 0 <= i < doc.NumPages() => RawChunk(PageText(doc.pages[i]), PageProxy(i + 1)))
  }

  /** The corrected chunks are the raw ones with each page object replaced by the number it stands for. */
  lemma ChunksTagPageIndex(doc: PdfDocument)
    ensures |Chunks(doc)| == |RawChunks(doc)|
    ensures forall i :: 0 <= i < |Chunks(doc)| ==>
      Chunks(doc)[i] == Chunk(RawChunks(doc)[i].text, RawChunks(doc)[i].page.pageNumber)
  {
  }
}
