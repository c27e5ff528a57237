/**
 * elements/QueryElement.py: the record of one chat request and the lines its
 * two display methods print. Printing itself is not modelled: each method
 * returns the printed strings, one per `print` call.
 */
module QueryElements {
  import opened Wrappers
  import opened Text
  import DataElements

  /** One chat message or prompt message: a Python dict of strings. */
  type Message = map<string, string>

  /** A retrieved chunk: its `page_content` and, when it has one, its `metadata` rendering. */
  datatype Document = Document(pageContent: string, metadata: Option<string>)

  /** The two shapes of `final_prompt` the display handles: a string, or a list of messages. */
  datatype FinalPrompt = PromptText(text: string) | PromptMessages(messages: seq<Message>)

  class QueryElement {
    var query: string
    var messageNumber: int
    var collectionDbName: Option<string>
    var previousMessages: seq<Message>
    var upgradedQuery: string
    var queryEmbedding: Option<seq<real>>
    var topChunks: Option<seq<Document>>
    var promptChunks: Option<seq<Document>>
    var finalPrompt: Option<FinalPrompt>
    var answer: Option<string>

    /**
     * `QueryElement(query, ...)`: every field takes its argument, the
     * rewritten query starts as the query itself, and the optional fields
     * default to `None` (the history to an empty list, the number to 0).
     */
    constructor (query: string, messageNumber: int := 0, collectionDbName: Option<string> := None,
                 previousMessages: seq<Message> := [], queryEmbedding: Option<seq<real>> := None,
                 topChunks: Option<seq<Document>> := None, promptChunks: Option<seq<Document>> := None,
                 finalPrompt: Option<FinalPrompt> := None, answer: Option<string> := None)
      ensures this.query == query && this.upgradedQuery == query
      ensures this.messageNumber == messageNumber && this.collectionDbName == collectionDbName
      ensures this.previousMessages == previousMessages && this.queryEmbedding == queryEmbedding
      ensures this.topChunks == topChunks && this.promptChunks == promptChunks
      ensures this.finalPrompt == finalPrompt && this.answer == answer
    {
      this.query := query;
      this.messageNumber := messageNumber;
      this.collectionDbName := collectionDbName;
      this.previousMessages := previousMessages;
      this.upgradedQuery := query;
      this.queryEmbedding := queryEmbedding;
      this.topChunks := topChunks;
      this.promptChunks := promptChunks;
      this.finalPrompt := finalPrompt;
      this.answer := answer;
    }

    /**
     * `display_final_prompt`: one "missing" line for a falsy prompt; for a
     * list, a header and then one line per message, in order, an invalid
     * report for each message lacking `type` or `content`; one "unsupported"
     * line for a non-empty string.
     */
    method DisplayFinalPrompt(show: Message -> string) returns (lines: seq<string>)
      ensures !IsTruthy(finalPrompt) ==> lines == [NoPromptMessage]
      ensures IsTruthy(finalPrompt) && finalPrompt.value.PromptText? ==> lines == [UnsupportedPrompt]
      ensures IsTruthy(finalPrompt) && finalPrompt.value.PromptMessages? ==>
        var messages := finalPrompt.value.messages;
        && |lines| == |messages| + 1
        && lines[0] == PromptHeader
        && forall i | 0 <= i < |messages| ::
             && (IsWellFormed(messages[i]) ==>
                   lines[i + 1] == messages[i]["type"] + ": " + messages[i]["content"] + "\n")
             && (!IsWellFormed(messages[i]) ==> lines[i + 1] == InvalidMessage + show(messages[i]))
    {
      if !IsTruthy(finalPrompt) {
        return [NoPromptMessage];
      }
      match finalPrompt.value
      case PromptText(_) =>
        lines := [UnsupportedPrompt];
      case PromptMessages(messages) =>
        lines := [PromptHeader];
        for i := 0 to |messages|
          invariant |lines| == i + 1 && lines[0] == PromptHeader
          invariant forall j | 0 <= j < i :: lines[j + 1] == MessageLine(messages[j], show)
        {
          var message := messages[i];
          if "type" in message && "content" in message {
            lines := lines + [message["type"] + ": " + message["content"] + "\n"];
          } else {
            lines := lines + [InvalidMessage + show(message)];
          }
        }
    }
  }

  const NoChunksMessage: string := "Нет доступных чанков для отображения."
  const NoPromptMessage: string := "Итоговый промпт отсутствует."
  const PromptHeader: string := "Итоговый промпт, подаваемый на вход модели:\n"
  const InvalidMessage: string := "Неверный формат сообщения: "
  /** The unsupported-type line for a string prompt, whose `type` prints as `<class 'str'>`. */
  const UnsupportedPrompt: string := "Неподдерживаемый формат итогового промпта: <class 'str'>"

  /** Python truthiness of `final_prompt`: not `None`, not `""` and not `[]`. */
  predicate IsTruthy(prompt: Option<FinalPrompt>) {
    match prompt
    case None => false
    case Some(PromptText(text)) => text != ""
    case Some(PromptMessages(messages)) => messages != []
  }

  /** A prompt message that has both a `type` and a `content`. */
  predicate IsWellFormed(message: Message) {
    "type" in message && "content" in message
  }

  /** The line printed for one prompt message. */
  function MessageLine(message: Message, show: Message -> string): string {
    if IsWellFormed(message) then message["type"] + ": " + message["content"] + "\n"
    else InvalidMessage + show(message)
  }

  /**
   * The content `display_chunks` shows: unchanged when it has at most `limit`
   * characters, otherwise `content[:limit]` followed by `"..."`, which for a
   * non-negative `limit` is the first `limit` characters and is `limit + 3`
   * characters long.
   */
  function Truncate(content: string, limit: int): (r: string)
    ensures |content| <= limit ==> r == content
    ensures |content| > limit ==> r == PyPrefix(content, limit) + "..."
    ensures |content| > limit >= 0 ==> r == content[..limit] + "..." && |r| == limit + 3
    ensures |r| <= |content| + 3
  {
    if |content| > limit then PyPrefix(content, limit) + "..." else content
  }

  /** How `metadata` prints: its rendering, or `{}` for a chunk without one. */
  function MetadataText(doc: Document): string {
    doc.metadata.GetOr("{}")
  }

  /** The pieces of a `display_chunks` line: `"Chunk <n>: <content>, \nmetadata=<metadata>\n"`. */
  const LineLead: string := "Chunk "
  const LineMid: string := ": "
  const LineMeta: string := ", \nmetadata="
  const LineEnd: string := "\n"

  /** The line `display_chunks` prints for the chunk at index `i`: numbered `i + 1`. */
  function ChunkLine(i: nat, doc: Document, limit: int): string {
    LineLead + (NatToString(i + 1) + (LineMid + (Truncate(doc.pageContent, limit) + (LineMeta + (MetadataText(doc) + LineEnd)))))
  }

  /**
   * The line for the chunk at index `i` carries number `i + 1`, then the
   * truncated content, then the metadata.
   */
  lemma ChunkLineFields(i: nat, doc: Document, limit: int)
    ensures var r := ChunkLine(i, doc, limit);
      var num := NatToString(i + 1);
      var shown := Truncate(doc.pageContent, limit);
      var k := |LineLead| + |num| + |LineMid|;
      var m := k + |shown| + |LineMeta|;
      && r[..|LineLead|] == LineLead
      && r[|LineLead|..|LineLead| + |num|] == num && ParseNat(num) == i + 1
      && r[k..k + |shown|] == shown
      && r[m..m + |MetadataText(doc)|] == MetadataText(doc)
  {
    var num := NatToString(i + 1);
    var shown := Truncate(doc.pageContent, limit);
    var meta := MetadataText(doc);
    assert ChunkLine(i, doc, limit) == LineLead + (num + (LineMid + (shown + (LineMeta + (meta + LineEnd)))));
    DataElements.FieldsOfRecord(LineLead, num, LineMid, shown, LineMeta, meta, LineEnd);
    ParseNatToString(i + 1);
  }

  /** Python truthiness of the chunk list: neither `None` nor empty. */
  predicate HasChunks(chunks: Option<seq<Document>>) {
    chunks.Some? && chunks.value != []
  }

  /**
   * `display_chunks`: only the no-chunks message for a `None` or empty list,
   * otherwise one line per chunk, in order.
   */
  method DisplayChunks(chunks: Option<seq<Document>>, limitSize: int := 200) returns (lines: seq<string>)
    ensures !HasChunks(chunks) ==> lines == [NoChunksMessage]
    ensures HasChunks(chunks) ==>
      && |lines| == |chunks.value|
      && forall i | 0 <= i < |lines| :: lines[i] == ChunkLine(i, chunks.value[i], limitSize)
  {
    if !HasChunks(chunks) {
      return [NoChunksMessage];
    }
    var docs := chunks.value;
    lines := [];
    for i := 0 to |docs|
      invariant |lines| == i
      invariant forall j | 0 <= j < i :: lines[j] == ChunkLine(j, docs[j], limitSize)
    {
      lines := lines + [ChunkLine(i, docs[i], limitSize)];
    }
  }
}
