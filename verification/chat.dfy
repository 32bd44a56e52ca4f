/**
  The `ChatBox` component (ChatBox.tsx): its state is the message log, the
  text in the input box and the page shown in the viewer. One press of the
  send button runs `handleSend`; the embedding and completion requests are
  replaced by an `Outcome` value that says what they returned.
 */
module Chat {
  import opened Wrappers
  import Text
  import Upload
  import Ranking
  import Prompt

  datatype Role = User | Assistant

  /** A log entry; only assistant answers carry `cites`. */
  datatype Message = Message(role: Role, text: string, cites: Option<seq<nat>>)

  datatype ChatBox = ChatBox(messages: seq<Message>, input: string, pageNumber: int)

  const Initial: ChatBox := ChatBox([], "", 1)

  /**
    What the requests of one turn returned: no query embedding, a chunk
    embedding missing (so the similarity computation throws), or one score per
    chunk and the completion's message content, which may be absent.
   */
  datatype Outcome =
    | QueryEmbeddingFailed
    | ChunkEmbeddingFailed
    | Completed(scores: seq<int>, content: Option<string>)

  /** `Promise.all` over `chunks.map` yields exactly one score per chunk. */
  predicate OneScorePerChunk(chunks: seq<Upload.Chunk>, outcome: Outcome) {
    outcome.Completed? ==> |outcome.scores| == |chunks|
  }

  /** What a press of send leaves behind, and the prompt sent for completion if the turn got that far. */
  datatype Turn = Turn(after: ChatBox, prompt: Option<string>)

  /** `!input.trim()`: true exactly when the input holds nothing but white space. */
  predicate InputIsBlank(input: string): (b: bool)
    ensures b <==> Text.AllWhitespace(input)
  {
    Text.TrimEmptyIffAllWhitespace(input);
    Text.Trim(input) == ""
  }

  /** The usable answer: message content that is present and not the empty (falsy) string. */
  function Answer(outcome: Outcome): Option<string> {
    if outcome.Completed? && outcome.content.Some? && outcome.content.value != "" then outcome.content else None
  }

  function TopChunks(chunks: seq<Upload.Chunk>, scores: seq<int>): seq<Ranking.ScoredChunk>
    requires |scores| == |chunks|
  {
    Ranking.RankTop3(Ranking.Score(chunks, scores))
  }

  /** `topChunks.map((c) => c.page)`. */
  function Citations(top: seq<Ranking.ScoredChunk>): (cites: seq<nat>)
    ensures |cites| == |top|
    ensures forall k :: 0 <= k < |top| ==> cites[k] == top[k].chunk.page
  {
    seq(|top|, k requires 0 <= k < |top| => top[k].chunk.page)
  }

  /**
    `handleSend`. A blank input changes nothing. Otherwise the question is
    appended as a user message; the answer, when one arrives, is appended
    after it with the pages of the ranked chunks as citations, and the input is
    cleared. A failed turn keeps the question in the log and in the input box.
   */
  function Send(chunks: seq<Upload.Chunk>, box: ChatBox, outcome: Outcome): (t: Turn)
    requires OneScorePerChunk(chunks, outcome)
    ensures t.after.pageNumber == box.pageNumber
    ensures InputIsBlank(box.input) ==> t.after == box && t.prompt.None?
    ensures !InputIsBlank(box.input) ==>
      && |box.messages| < |t.after.messages|
      && t.after.messages[..|box.messages|] == box.messages
      && t.after.messages[|box.messages|] == Message(User, box.input, None)
    ensures !InputIsBlank(box.input) && Answer(outcome).Some? ==>
      && |t.after.messages| == |box.messages| + 2
      && t.after.messages[|box.messages| + 1]
         == Message(Assistant, Answer(outcome).value, Some(Citations(TopChunks(chunks, outcome.scores))))
      && t.after.input == ""
    ensures !InputIsBlank(box.input) && Answer(outcome).None? ==>
      && |t.after.messages| == |box.messages| + 1
      && t.after.input == box.input
  {
    if InputIsBlank(box.input) then Turn(box, None)
    else
      var asked := box.messages + [Message(User, box.input, None)];
      match outcome
      case QueryEmbeddingFailed => Turn(box.(messages := asked), None)
      case ChunkEmbeddingFailed => Turn(box.(messages := asked), None)
      case Completed(scores, content) =>
        var top := TopChunks(chunks, scores);
        var prompt := Prompt.BuildPrompt(top, box.input);
        if content.None? || content.value == "" then Turn(box.(messages := asked), Some(prompt))
        else
          var answer := Message(Assistant, content.value, Some(Citations(top)));
          Turn(ChatBox(asked + [answer], "", box.pageNumber), Some(prompt))
  }

  /**
    The completion request is made exactly when both embedding steps succeeded,
    and it carries the prompt built from the three best chunks and the untrimmed input.
   */
  lemma SendPromptsWithRanking(chunks: seq<Upload.Chunk>, box: ChatBox, outcome: Outcome)
    requires OneScorePerChunk(chunks, outcome)
    ensures Send(chunks, box, outcome).prompt.Some? <==> !InputIsBlank(box.input) && outcome.Completed?
    ensures Send(chunks, box, outcome).prompt.Some? ==>
      Send(chunks, box, outcome).prompt.value == Prompt.BuildPrompt(TopChunks(chunks, outcome.scores), box.input)
  {
    var t := Send(chunks, box, outcome);
    if InputIsBlank(box.input) {
      assert t.prompt.None?;
    } else if outcome.Completed? {
      assert t.prompt == Some(Prompt.BuildPrompt(TopChunks(chunks, outcome.scores), box.input));
    } else {
      assert t.prompt.None?;
    }
  }

  /** An empty or white-space-only question is ignored. */
  lemma BlankInputIsIgnored(chunks: seq<Upload.Chunk>, box: ChatBox, outcome: Outcome)
    requires OneScorePerChunk(chunks, outcome)
    requires Text.AllWhitespace(box.input)
    ensures Send(chunks, box, outcome) == Turn(box, None)
  {
  }

  /** The citations of an answer are the pages of at most three chunks, most similar first. */
  lemma CitationsComeFromRanking(chunks: seq<Upload.Chunk>, scores: seq<int>)
    requires |scores| == |chunks|
    ensures |Citations(TopChunks(chunks, scores))| == Ranking.Min(Ranking.TopK, |chunks|)
    ensures forall k :: 0 <= k < |Citations(TopChunks(chunks, scores))| ==>
      (var j := Ranking.TopPositions(Ranking.Score(chunks, scores))[k];
       j < |chunks| && Citations(TopChunks(chunks, scores))[k] == chunks[j].page)
    ensures forall a, b :: 0 <= a < b < |Citations(TopChunks(chunks, scores))| ==>
      (var ja := Ranking.TopPositions(Ranking.Score(chunks, scores))[a];
       var jb := Ranking.TopPositions(Ranking.Score(chunks, scores))[b];
       ja < |chunks| && jb < |chunks| && scores[ja] >= scores[jb])
  {
  }

  /** The previous-page button: never below page 1, otherwise one page back. */
  function PrevPage(p: int): (r: int)
    ensures r >= 1
    ensures p > 1 ==> r == p - 1
    ensures p <= 1 ==> r == 1
  {
    if 1 >= p - 1 then 1 else p - 1
  }

  /** The next-page button: never beyond the last page, otherwise one page on. */
  function NextPage(p: int, total: int): (r: int)
    ensures r <= total
    ensures p < total ==> r == p + 1
    ensures p >= total ==> r == total
  {
    if total <= p + 1 then total else p + 1
  }

  /** Inside the document, going back then forward (or forward then back) returns to the same page. */
  lemma PageMovesUndo(p: int, total: int)
    ensures 1 < p <= total ==> NextPage(PrevPage(p), total) == p
    ensures 1 <= p < total ==> PrevPage(NextPage(p, total)) == p
    ensures PrevPage(1) == 1 && NextPage(total, total) == total
  {
  }

  /** What the user can do to the component. */
  datatype Event = Typed(text: string) | SendPressed(outcome: Outcome) | PrevPressed | NextPressed

  predicate Admissible(chunks: seq<Upload.Chunk>, events: seq<Event>) {
    forall i :: 0 <= i < |events| && events[i].SendPressed? ==> OneScorePerChunk(chunks, events[i].outcome)
  }

  /**
    The input's `onChange` replaces only the input text; the send button runs
    `handleSend`; the page buttons move only the page shown, keeping it within
    1..total when it was there already.
   */
  function Step(chunks: seq<Upload.Chunk>, total: int, box: ChatBox, e: Event): (r: ChatBox)
    requires e.SendPressed? ==> OneScorePerChunk(chunks, e.outcome)
    ensures e.Typed? ==> r == ChatBox(box.messages, e.text, box.pageNumber)
    ensures e.SendPressed? ==> r == Send(chunks, box, e.outcome).after
    ensures (e.PrevPressed? || e.NextPressed?) ==> r.messages == box.messages && r.input == box.input
    ensures (e.PrevPressed? || e.NextPressed?) && 1 <= box.pageNumber <= total ==> 1 <= r.pageNumber <= total
    ensures e.PrevPressed? ==> r.pageNumber == PrevPage(box.pageNumber)
    ensures e.NextPressed? ==> r.pageNumber == NextPage(box.pageNumber, total)
    ensures e.PrevPressed? ==> r.pageNumber <= box.pageNumber || box.pageNumber < 1
    ensures e.NextPressed? ==> r.pageNumber >= box.pageNumber || box.pageNumber > total
  {
    match e
    case Typed(text) => box.(input := text)
    case SendPressed(outcome) => Send(chunks, box, outcome).after
    case PrevPressed => box.(pageNumber := PrevPage(box.pageNumber))
    case NextPressed => box.(pageNumber := NextPage(box.pageNumber, total))
  }

  function Run(chunks: seq<Upload.Chunk>, total: int, box: ChatBox, events: seq<Event>): ChatBox
    requires Admissible(chunks, events)
    decreases |events|
  {
    if |events| == 0 then box
    else Run(chunks, total, Step(chunks, total, box, events[0]), events[1..])
  }

  function PagesOf(chunks: seq<Upload.Chunk>): set<nat> {
    set j | 0 <= j < |chunks| :: chunks[j].page
  }

  predicate CitesChunkPages(chunks: seq<Upload.Chunk>, cites: seq<nat>) {
    forall k :: 0 <= k < |cites| ==> cites[k] in PagesOf(chunks)
  }

  /**
    A log entry is consistent: a question is never blank and carries no
    citations; an answer follows a question, is not empty, and cites at most
    three pages, each the page of some chunk.
   */
  predicate MessageOk(chunks: seq<Upload.Chunk>, m: seq<Message>, i: nat)
    requires i < |m|
  {
    match m[i].role
    case User => m[i].cites.None? && !InputIsBlank(m[i].text)
    case Assistant =>
      && i > 0 && m[i - 1].role == User
      && m[i].text != ""
      && m[i].cites.Some? && |m[i].cites.value| <= Ranking.TopK
      && CitesChunkPages(chunks, m[i].cites.value)
  }

  /** The invariant of the component: the viewer shows a real page and every log entry is consistent. */
  predicate Coherent(chunks: seq<Upload.Chunk>, total: int, box: ChatBox) {
    && 1 <= box.pageNumber <= total
    && forall i :: 0 <= i < |box.messages| ==> MessageOk(chunks, box.messages, i)
  }

  lemma InitialIsCoherent(chunks: seq<Upload.Chunk>, total: int)
    requires total >= 1
    ensures Coherent(chunks, total, Initial)
  {
  }

  /** Entries already in the log stay consistent when more are appended after them. */
  lemma KeptEntriesStayOk(chunks: seq<Upload.Chunk>, before: seq<Message>, m: seq<Message>)
    requires before <= m
    requires forall i :: 0 <= i < |before| ==> MessageOk(chunks, before, i)
    ensures forall i :: 0 <= i < |before| ==> MessageOk(chunks, m, i)
  {
    forall i | 0 <= i < |before|
      ensures MessageOk(chunks, m, i)
    {
      assert m[i] == before[i];
      if i > 0 {
        assert m[i - 1] == before[i - 1];
      }
      assert MessageOk(chunks, before, i);
    }
  }

  /** Every page an answer cites is the page of one of the chunks. */
  lemma AnswerCitesChunkPages(chunks: seq<Upload.Chunk>, scores: seq<int>)
    requires |scores| == |chunks|
    ensures |Citations(TopChunks(chunks, scores))| <= Ranking.TopK
    ensures CitesChunkPages(chunks, Citations(TopChunks(chunks, scores)))
  {
    var sc := Ranking.Score(chunks, scores);
    var top := TopChunks(chunks, scores);
    var cites := Citations(top);
    forall k | 0 <= k < |cites|
      ensures cites[k] in PagesOf(chunks)
    {
      var j := Ranking.TopPositions(sc)[k];
      assert top[k] == sc[j];
      assert cites[k] == chunks[j].page;
    }
  }

  /**
    Appending a question, optionally followed by an answer to it, keeps the log
    consistent.
   */
  lemma AppendedTurnOk(chunks: seq<Upload.Chunk>, before: seq<Message>, m: seq<Message>)
    requires forall i :: 0 <= i < |before| ==> MessageOk(chunks, before, i)
    requires before <= m && |before| + 1 <= |m| <= |before| + 2
    requires m[|before|].role == User && m[|before|].cites.None? && !InputIsBlank(m[|before|].text)
    requires |m| == |before| + 2 ==>
      && m[|before| + 1].role == Assistant && m[|before| + 1].text != ""
      && m[|before| + 1].cites.Some? && |m[|before| + 1].cites.value| <= Ranking.TopK
      && CitesChunkPages(chunks, m[|before| + 1].cites.value)
    ensures forall i :: 0 <= i < |m| ==> MessageOk(chunks, m, i)
  {
    KeptEntriesStayOk(chunks, before, m);
    assert MessageOk(chunks, m, |before|);
    if |m| == |before| + 2 {
      assert MessageOk(chunks, m, |before| + 1);
    }
  }

  /** A press of send keeps the invariant and only appends to the log. */
  lemma SendKeepsCoherent(chunks: seq<Upload.Chunk>, total: int, box: ChatBox, outcome: Outcome)
    requires OneScorePerChunk(chunks, outcome)
    requires Coherent(chunks, total, box)
    ensures Coherent(chunks, total, Send(chunks, box, outcome).after)
    ensures box.messages <= Send(chunks, box, outcome).after.messages
  {
    var after := Send(chunks, box, outcome).after;
    if !InputIsBlank(box.input) {
      var n := |box.messages|;
      assert after.messages[..n] == box.messages;
      if Answer(outcome).Some? {
        AnswerCitesChunkPages(chunks, outcome.scores);
      }
      AppendedTurnOk(chunks, box.messages, after.messages);
    }
  }

  /** One event keeps the invariant and only ever appends to the log. */
  lemma StepKeepsCoherent(chunks: seq<Upload.Chunk>, total: int, box: ChatBox, e: Event)
    requires e.SendPressed? ==> OneScorePerChunk(chunks, e.outcome)
    requires Coherent(chunks, total, box)
    ensures Coherent(chunks, total, Step(chunks, total, box, e))
    ensures box.messages <= Step(chunks, total, box, e).messages
  {
    if e.SendPressed? {
      SendKeepsCoherent(chunks, total, box, e.outcome);
    }
  }

  /** Any sequence of events keeps the invariant, and the log only grows at its end. */
  lemma {:induction false} RunKeepsCoherent(chunks: seq<Upload.Chunk>, total: int, box: ChatBox, events: seq<Event>)
    requires Admissible(chunks, events)
    requires Coherent(chunks, total, box)
    ensures Coherent(chunks, total, Run(chunks, total, box, events))
    ensures box.messages <= Run(chunks, total, box, events).messages
    decreases |events|
  {
    if |events| > 0 {
      var next := Step(chunks, total, box, events[0]);
      StepKeepsCoherent(chunks, total, box, events[0]);
      assert Admissible(chunks, events[1..]) by {
        forall i | 0 <= i < |events[1..]| && events[1..][i].SendPressed?
          ensures OneScorePerChunk(chunks, events[1..][i].outcome)
        {
          assert events[1..][i] == events[i + 1];
        }
      }
      RunKeepsCoherent(chunks, total, next, events[1..]);
    }
  }

  /**
    For a component mounted on an uploaded document (one chunk per page, at
    least one page), every page the viewer shows and every page an answer
    cites lies between 1 and the page count.
   */
  lemma CitedPagesExist(doc: Upload.PdfDocument, events: seq<Event>)
    requires doc.NumPages() >= 1
    requires Admissible(Upload.Chunks(doc), events)
    ensures var box := Run(Upload.Chunks(doc), doc.NumPages(), Initial, events);
      && 1 <= box.pageNumber <= doc.NumPages()
      && forall i, k :: 0 <= i < |box.messages| && box.messages[i].cites.Some? && 0 <= k < |box.messages[i].cites.value| ==>
           1 <= box.messages[i].cites.value[k] <= doc.NumPages()
  {
    var chunks := Upload.Chunks(doc);
    var total := doc.NumPages();
    InitialIsCoherent(chunks, total);
    RunKeepsCoherent(chunks, total, Initial, events);
    var box := Run(chunks, total, Initial, events);
    forall i, k | 0 <= i < |box.messages| && box.messages[i].cites.Some? && 0 <= k < |box.messages[i].cites.value|
      ensures 1 <= box.messages[i].cites.value[k] <= total
    {
      assert MessageOk(chunks, box.messages, i);
      var p := box.messages[i].cites.value[k];
      assert p in PagesOf(chunks);
      var j :| 0 <= j < |chunks| && chunks[j].page == p;
    }
  }
}
