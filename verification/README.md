# notebook--llm: the question-answer turn, in Dafny

This project models the logic of a small "chat with your PDF" web app. An
uploaded PDF becomes one text chunk per page. The user then asks a question,
and the `ChatBox` component answers it in one turn:

1. it ranks the chunks by similarity to the question;
2. it builds a prompt from the three best chunks;
3. it appends the answer to the message log, with the pages of those chunks
   as citations.

The viewer beside the chat has previous/next page buttons.

The network calls are not modelled. The embedding of the question, the
embedding of each chunk and the completion request are replaced by one
`Chat.Outcome` value. It is either a failure (no query embedding, or a
missing chunk embedding) or `Completed(scores, content)`: one score per chunk
plus the completion's message content, which may be absent. Scores are
abstract integers, not floating-point cosine similarities.

Five modules carry the model, and `Wrappers` holds the `Option` type they share. `Upload` models `PDFUpload.tsx`. `Ranking`, `Prompt` and `Chat` divide `ChatBox.tsx` by concern. `Text` holds the JavaScript string primitives that both files use:

- `Text`: JavaScript's `trim`, `Array.prototype.join`, and how a template
  literal prints a page number (decimal digits).
- `Upload`: the chunk loop of `handleUpload` in `PDFUpload.tsx`, and the
  chunk list as the code actually builds it (see Findings). As written, each
  chunk's page is the pdf.js page object. `Ranking`, `Prompt` and `Chat` run
  on the corrected chunk list, where the page is the page number, so their
  labels and citations speak of page numbers.
- `Ranking`: `sort((a, b) => b.score - a.score).slice(0, 3)`. The sort is
  modelled by its result. It is the stable order of the positions: higher
  score first, and on a tie the earlier position first. `StableSortIsUnique`
  shows that every stable sort by that comparator gives this same order, so
  the result does not depend on which algorithm the engine uses.
- `Prompt`: the prompt string.
- `Chat`: `handleSend` as the pure function `Send`, the two page buttons,
  and an invariant over any sequence of user events.

What the turn does not do, as the code is written:

- There is no placeholder "thinking" message.
- There is no busy guard against a second send.
- A failed turn appends no error message; it only raises an alert.
- A zero-magnitude embedding gives NaN, not a score of 0.
- Only the user message of a failed turn stays in the log, and the input
  box keeps the question.

## Model

| member | source | states |
|---|---|---|
| Text.SkipLeading | src/components/ChatBox.tsx:33 | the scan for the start of the trimmed text stops at the first non-white-space character, and everything it skipped is white space |
| Text.SkipTrailing | src/components/ChatBox.tsx:33 | the scan for the end of the trimmed text stops just past the last non-white-space character, and everything it skipped is white space |
| Text.Trim | src/components/ChatBox.tsx:33 | `trim` never lengthens the string, and a non-empty result neither starts nor ends with white space |
| Text.TrimIsMiddleSlice | src/components/ChatBox.tsx:33 | the input is its leading white space, then the trimmed text, then its trailing white space, and nothing else |
| Text.ThreeParts | src/components/ChatBox.tsx:33 | cutting a string twice gives back the whole string, and outer parts that were white space character by character are white-space strings |
| Text.TrimEmptyIffAllWhitespace | src/components/ChatBox.tsx:33 | `input.trim()` is empty (falsy) exactly when every character of the input is JavaScript white space |
| Text.Join | src/components/PDFUpload.tsx:38 | `join` of no items is "", and a single item joins to itself with no separator |
| Text.JoinLength | src/components/PDFUpload.tsx:38 | a join of one or more items is as long as the items together plus one separator between each pair of neighbours |
| Text.JoinPrefix | src/components/ChatBox.tsx:83-85 | joining the first k items gives a prefix of joining all of them |
| Text.JoinPlacesItem | src/components/PDFUpload.tsx:38 | every item appears intact at its offset in the joined string, right after a separator unless it is the first |
| Text.JoinPlacesAll | src/components/PDFUpload.tsx:38 | all items at once: each appears intact at its own offset in the joined string |
| Text.ItemOffsetsIncrease | src/components/ChatBox.tsx:83-85 | item k+1 starts exactly one separator after item k ends |
| Text.DigitChar | src/components/ChatBox.tsx:84 | a digit below ten is printed as the matching decimal digit character |
| Text.NatToDecimal | src/components/ChatBox.tsx:84 | a page number is printed as a non-empty string of decimal digits with no leading zero |
| Text.DecimalRoundTrip | src/components/ChatBox.tsx:84 | reading the printed digits back gives the page number |
| Text.NatToDecimalInjective | src/components/ChatBox.tsx:84 | different page numbers print differently |
| Upload.SpaceBeforeEachItem | src/components/PDFUpload.tsx:38 | in a join with " ", the character right before each item but the first is a space |
| Upload.PageText | src/components/PDFUpload.tsx:38 | a page with no items gives ""; otherwise the text is the items with exactly one space between neighbours, each item intact at its offset |
| Upload.Chunks | src/components/PDFUpload.tsx:35-40 | one chunk per page of the document; chunk i holds the text of `doc.pages[i]`, the (i+1)-th page, and the page number i+1, which lies in 1..numPages |
| Upload.ChunksUpTo | src/components/PDFUpload.tsx:35-40 | after pages 1..n the loop holds n chunks; chunk i has page i+1 and that page's item strings joined by spaces |
| Upload.HandleUpload | src/components/PDFUpload.tsx:23-43 | no file selected gives no chunks; a document gives its page count and one chunk per page in page order, chunk i holding the items of `doc.pages[i]`, the (i+1)-th page, joined by spaces, and the page number i+1 |
| Upload.ChunksFollowPages | src/components/PDFUpload.tsx:35-40 | the chunks' page numbers strictly increase along the list |
| Upload.PageTextEdgeCases | src/components/PDFUpload.tsx:38-39 | a page with no text items still yields a chunk, with empty text; a page with one item yields that item's string |
| Upload.EmptyDocumentHasNoChunks | src/components/PDFUpload.tsx:35-42 | a document with zero pages yields an empty chunk list |
| Upload.ChunkKeepsItems | src/components/PDFUpload.tsx:38 | each item string of a page appears intact in that page's chunk, one space after the previous item |
| Upload.RawChunks | src/components/PDFUpload.tsx:36-39 | as written, the loop stores one entry per page whose page field is the page object for page i+1 |
| Upload.ChunksTagPageIndex | src/components/PDFUpload.tsx:36-39 | the corrected chunks are the as-written ones with each page object replaced by its page number |
| Ranking.Score | src/components/ChatBox.tsx:54-77 | one scored chunk per chunk, in chunk order, carrying that chunk and its score |
| Ranking.Insert | src/components/ChatBox.tsx:79-80 | inserting a position into a stably ordered list gives a stably ordered list of the old positions plus the new one |
| Ranking.OrderFrom | src/components/ChatBox.tsx:79-80 | positions k..n-1, each exactly once, in stable descending score order |
| Ranking.StableOrder | src/components/ChatBox.tsx:79-80 | the sort leaves a permutation of all positions in which every earlier entry has a higher score, or the same score and an earlier position |
| Ranking.TopPositions | src/components/ChatBox.tsx:79-81 | `slice(0, 3)` keeps min(3, n) distinct positions, stably ordered, and each kept position comes before every dropped one |
| Ranking.RankTop3 | src/components/ChatBox.tsx:79-81 | min(3, n) chunks, each one of the scored chunks, with scores non-increasing; no dropped chunk scores above the last one kept |
| Ranking.RankTop3IsStable | src/components/ChatBox.tsx:80 | kept chunks with equal scores keep their original relative order |
| Ranking.FirstPrecedesRest | src/components/ChatBox.tsx:80 | the head of a stably ordered list comes before each other entry |
| Ranking.OrderedUnique | src/components/ChatBox.tsx:80 | two stably ordered lists of the same positions are equal |
| Ranking.StableSortIsUnique | src/components/ChatBox.tsx:80 | any permutation of the positions sorted by the comparator, ties by position, is exactly `StableOrder` |
| Ranking.TwoChunkRanking | src/components/ChatBox.tsx:79-81 | with two chunks the higher score comes first and a tie keeps page order |
| Prompt.PageBlock | src/components/ChatBox.tsx:84 | a block starts with `Page ` and is as long as that, the page's digits, `: ` and the chunk text together |
| Prompt.BuildPrompt | src/components/ChatBox.tsx:83-85 | the prompt starts with the fixed header; with no chunks it is the header, a blank line, `Q: ` and the untrimmed question |
| Prompt.PromptShape | src/components/ChatBox.tsx:83-85 | the prompt ends with a blank line, `Q: ` and the untrimmed question; with chunks its length is the header, the blocks, one blank line between neighbouring blocks, and the question part, with nothing else |
| Prompt.BlockInPrompt | src/components/ChatBox.tsx:83-85 | the block of the k-th ranked chunk appears intact at its offset in the prompt |
| Prompt.BlankLineBeforeBlock | src/components/ChatBox.tsx:83-85 | each block but the first comes right after a blank line in the prompt |
| Prompt.PromptHoldsBlock | src/components/ChatBox.tsx:83-85 | the block of the k-th ranked chunk appears intact at its offset in the prompt, and each block but the first comes right after a blank line |
| Prompt.BlocksFollowRanking | src/components/ChatBox.tsx:83-85 | block k+1 starts one blank line after block k ends, so the blocks appear in ranked order, not page order |
| Prompt.SliceInMiddle | src/components/ChatBox.tsx:83-85 | a slice of the middle part of header + blocks + question is the same slice of the blocks |
| Prompt.PageBlockNamesPage | src/components/ChatBox.tsx:84 | each block is `Page `, the page's digits (which read back as the page number), `: `, then the chunk text |
| Prompt.PageLabelsDistinguishPages | src/components/ChatBox.tsx:84 | chunks from different pages get different `Page p: ` labels |
| Prompt.AsWrittenLabel | src/components/ChatBox.tsx:84 | with a page object in place of the number, the label reads `Page [object Object]: ` |
| Prompt.AsWrittenLabelsCollide | src/components/PDFUpload.tsx:36-39 | as written, two different pages hold different page objects but get the same label, `Page [object Object]: ` |
| Prompt.CorrectedLabelsDiffer | src/components/PDFUpload.tsx:39 | with the page index stored, chunk i is labelled with page i+1 and different pages get different labels |
| Chat.InputIsBlank | src/components/ChatBox.tsx:33 | `!input.trim()` holds exactly when every character of the input is JavaScript white space |
| Chat.Citations | src/components/ChatBox.tsx:109 | one citation per kept chunk, in ranked order, each being that chunk's page |
| Chat.Send | src/components/ChatBox.tsx:32-118 | blank input: nothing changes and nothing is sent. Otherwise one user message holding the untrimmed input is appended and earlier messages stay as they were. Success means content is present and non-empty; then one assistant message follows, with that content and the ranked pages as citations, and the input becomes "". On failure the log has only the new question and the input is kept. The page shown never changes |
| Chat.SendPromptsWithRanking | src/components/ChatBox.tsx:51-97 | the completion request is made exactly when the input is non-blank and both embedding steps succeeded; it carries the prompt built from the top three chunks and the untrimmed input |
| Chat.BlankInputIsIgnored | src/components/ChatBox.tsx:33 | an all-white-space input leaves the component unchanged and sends nothing |
| Chat.CitationsComeFromRanking | src/components/ChatBox.tsx:104-111 | an answer cites min(3, n) pages; each is the page of a top-ranked chunk; their scores are non-increasing in citation order |
| Chat.PrevPage | src/components/ChatBox.tsx:194 | the previous-page button never goes below page 1 and otherwise moves one page back; on page 1 it stays |
| Chat.NextPage | src/components/ChatBox.tsx:203 | the next-page button never goes beyond totalPages and otherwise moves one page on; on the last page it stays |
| Chat.PageMovesUndo | src/components/ChatBox.tsx:194-203 | inside the document, back then forward (or forward then back) returns to the same page |
| Chat.Step | src/components/ChatBox.tsx:173-203 | typing replaces only the input; the send button runs `Send`; the previous-page button sets the page to `PrevPage` and the next-page button to `NextPage`, and both leave the log and the input alone and keep a page inside 1..totalPages inside it |
| Chat.InitialIsCoherent | src/components/ChatBox.tsx:26-30 | the initial state (empty log, empty input, page 1) satisfies the component invariant |
| Chat.KeptEntriesStayOk | src/components/ChatBox.tsx:35 | entries already in the log stay consistent when more are appended after them |
| Chat.AnswerCitesChunkPages | src/components/ChatBox.tsx:104-111 | an answer cites at most three pages, each the page of one of the chunks |
| Chat.AppendedTurnOk | src/components/ChatBox.tsx:35-111 | appending a non-blank question, optionally followed by a non-empty answer citing chunk pages, keeps the whole log consistent |
| Chat.SendKeepsCoherent | src/components/ChatBox.tsx:32-118 | a press of send keeps the invariant and only appends to the log |
| Chat.StepKeepsCoherent | src/components/ChatBox.tsx:32-118 | typing, sending or paging keeps the invariant and only appends to the log. The invariant: questions are non-blank; answers follow a question, are non-empty and cite at most three chunk pages; the page shown is in range |
| Chat.RunKeepsCoherent | src/components/ChatBox.tsx:32-118 | any sequence of events keeps the invariant, and the earlier log stays a prefix of the later one |
| Chat.CitedPagesExist | src/App.tsx:21-22 | mounted on an uploaded document with at least one page, the viewer page and every cited page lie in 1..numPages |

## Left out

- The network requests are not modelled: the embedding and completion `fetch` calls and their JSON parsing (`ChatBox.tsx` lines 38-50, 56-71 and 87-99). They become the `Outcome` value. A rejected request or unreadable response lands in the same catch branch as the missing fields, so it is folded into the failure outcomes.
- `cosineSimilarity` is left out: it is floating-point arithmetic, and a zero-magnitude vector gives NaN, which would break the sort's comparator. Scores enter as abstract integers. A missing chunk embedding makes it throw; that is the `ChunkEmbeddingFailed` outcome.
- `Chat.Send`: requires one score per chunk (`OneScorePerChunk`). `Promise.all` over `chunks.map` guarantees this, so it is a fact about the environment, not a weakening.
- React state plumbing is left out, and turns are modelled one after another. The code reads the captured `messages` for the question but uses a functional update for the answer, so overlapping sends could interleave; that is concurrency.
- `console.error` and `alert` in the catch branch are side effects with no effect on state.
- pdf.js is left out: document loading, worker configuration, `getPage`/`getTextContent`, and canvas rendering (`PDFViewer.tsx`, `ChatBox.tsx` lines 10 and 188-190). The document enters as its per-page item strings. Marked-content items (no `str`) are not produced with the default text-content options, so they are not modelled.
- The object URL and `setPdfFile`/`setPdfUrl` in `handleUpload` are left out: they have no effect on the chunk list.
- `App.tsx` is component wiring. It shows `ChatBox` only once a file is set and there is at least one chunk, and `Chat.CitedPagesExist` carries that as its precondition. Its other consequence, that `ChatBox` stays mounted across a re-upload, is covered by the `Chat.CitedPagesExist` line below.
- JSX markup, styling and icons are presentation only.
- `Chat.CitedPagesExist` holds while one document stays loaded, and a re-upload is not modelled. `App.tsx` line 21 keeps `ChatBox` mounted when a second file is chosen, so its page number and log persist. `handleUpload` sets the new page count (`PDFUpload.tsx` line 33) before it sets the new chunks (line 42). If `getPage` or `getTextContent` fails, the old chunks stay alongside the new page count. In these states the viewer page or an old citation can lie outside the new document.
- Strings are sequences of Unicode scalar values, while JavaScript strings are UTF-16 code units. So the lengths in `Prompt.PromptShape`, `Text.JoinLength` and `Upload.PageText` count characters, not `.length`, and lone surrogates cannot occur. The white-space set of `trim` has no characters outside the Basic Multilingual Plane, so trimming is unaffected.
- `Chat.PrevPage`, `Chat.NextPage`: page numbers are unbounded integers. The source's JavaScript numbers are exact far beyond any real page count.

## Findings

| source | as written | input that shows it | evidently intended | confidence | as-written member | corrected member |
|---|---|---|---|---|---|---|
| src/components/PDFUpload.tsx:36-39 | `chunks.push({ text, page })` stores the pdf.js page object returned by `getPage(i)` as the chunk's page, although `ChatBox` types it as a number | any document with two pages: both prompt blocks start `Page [object Object]: `, and the citations hold page objects instead of page numbers | store the page index, `{ text, page: i }` | not executed; the label text assumes the page object has no custom string conversion | Prompt.AsWrittenLabelsCollide | Prompt.CorrectedLabelsDiffer |
