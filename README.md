# RAG_LLM ingestion, modelled in Dafny

This project models the ingestion side of RAG_LLM, a retrieval-augmented
question-answering service. Ingestion is meant to parse a list of web pages,
clean their text, cut it into chunks labelled with their source, embed the
chunks and store them in a Milvus collection. As written, the service never
puts chunks on the element, so no run ever stores a chunk. With
`show_data_info` the chunk dump raises first; otherwise the embedder is sent
`None`, and either its answer is not 200 and the embedding raises with the
store untouched, or the collection is deleted, re-created empty, and the insert
raises on `None` (see "## Findings"). The chunked run is modelled as the
corrected `ProcessWithChunking`. The models cover:

- DataParsingNode: fetching and cleaning. The fetcher is a function parameter
  `parse` from URL to text and description.
- chunking.py: its stricter copy of `filter_text`, and `generate_chunks`.
  The LangChain splitter is a function parameter `split`.
- VectorDBNode: the server is a map from collection name to collection. On
  it, create, delete and insert are guarded updates. Search post-processing
  is a first-occurrence de-duplication of the raw hits.
- MakeDatasetRAG.process: the fixed order parse, chunk, embed, delete,
  create, insert. The embedder is a function parameter from the chunk list to
  an HTTP answer.
- DataElement and QueryElement: the records that carry one ingestion run and
  one chat request, and the strings their summary, dump and display methods
  produce.

Layout, one module per file:

- `wrappers.dfy`: `Option`, `Result`.
- `text.dfy`: Python `str` operations. Whitespace is Python's `isspace` set,
  used by `split()` and `strip()`. It also covers `split("\n")`, `join`, `in`,
  `str(n)` and the `[:k]` slice.
- `dict.dfy`: an insertion-ordered `dict`.
- `line_filter.dfy`: the cleaning pipeline both `filter_text` copies share,
  parameterised by the comparison.
- `data_parsing_node.dfy`, `chunking.dfy`, `vector_db_node.dfy`,
  `make_dataset_rag.dfy`, `data_element.dfy`, `query_element.dfy`: one
  per source file.

Classes are used where the source updates objects in place:

- `DataElement` and `QueryElement`.
- `DataParsingNode.process`, which sets `url_data`.
- `VectorDBNode`, whose field `collections` is the server's state.
- `MakeDatasetRAG`.

Loops are `for` loops proved against specification functions:

- the `url_data` loop;
- both loops of `generate_chunks`;
- the `save_chunks` loop;
- the de-duplication loop;
- both display loops.

## Model

| member | source | states |
|---|---|---|
| LineFilter.OutputLinesSpec | nodes/DataParsingNode.py:82-95 | Every output line passes the threshold, is stripped, holds no line feed and no stop phrase. The output is the kept lines up to the first one with a stop phrase, and that line, if any, is dropped. The output is an order-preserving subsequence of the stripped input lines. |
| LineFilter.Kept | nodes/DataParsingNode.py:83 | Every kept line passes the word-count threshold and equals its own `strip()`. Lines without line feeds stay without them. |
| LineFilter.KeptAppend | nodes/DataParsingNode.py:83 | The filter works line by line: the kept lines of `a + b` are those of `a` followed by those of `b`. |
| LineFilter.KeptPassing | nodes/DataParsingNode.py:83 | Every line whose word count passes the threshold is kept, stripped. |
| LineFilter.KeptThrough | nodes/DataParsingNode.py:83 | The kept lines up to and including a passing line `i` are the kept lines before it followed by line `i` stripped. |
| LineFilter.KeptCons | nodes/DataParsingNode.py:83 | The kept lines of a line followed by more lines: that line stripped if its word count passes (else nothing), then the kept lines of the rest. |
| LineFilter.OutputLinesComplete | nodes/DataParsingNode.py:82-95 | Completeness: an input line that passes the threshold, where neither it nor any passing line before it has a stop phrase, reaches the output stripped. |
| LineFilter.FilterComplete | nodes/DataParsingNode.py:82-97 | Every such line is a line of the joined result. |
| LineFilter.KeptIsSubsequence | chunking.py:52-53 | The kept lines are the stripped input lines, in order, some left out. |
| LineFilter.FirstStop | nodes/DataParsingNode.py:92 | `next(...)` as an index: no line before it has a stop phrase, and the line at it (if any) has one. |
| LineFilter.FilterIdempotent | nodes/DataParsingNode.py:79-97 | Filtering a filtered text returns it unchanged, for either comparison. |
| LineFilter.LinesOfFilter | nodes/DataParsingNode.py:97 | A non-empty result splits on line feeds back into exactly the output lines. |
| LineFilter.KeptFixpoint | chunking.py:53 | Lines that pass the threshold and are already stripped are all kept, unchanged. |
| LineFilter.BoundaryLine | chunking.py:53 | A line with exactly `n` words is kept by the inclusive threshold and dropped by the strict one. |
| Parsing.FilterText | nodes/DataParsingNode.py:68-97 | An empty text gives `''`. Every line of a non-empty result has at least `minWords` words, is stripped and holds no stop phrase. The result's lines are a subsequence of the stripped input lines. Conversely, every input line with at least `minWords` words that comes before the first passing line with a stop phrase is, stripped, a line of the result. A non-empty result's lines are exactly the kept lines before the first kept line with a stop phrase, so nothing from that line on survives. The default is `min_words=3`. |
| Parsing.FilterTextIdempotent | nodes/DataParsingNode.py:82-97 | The inclusive `filter_text` is idempotent. |
| Parsing.UrlDataFor | nodes/DataParsingNode.py:22-31 | The `url_data` the loop builds is a well-formed ordered dict. |
| Parsing.UrlDataForEntries | nodes/DataParsingNode.py:26-30 | A URL is a key exactly when it is listed and its page text is non-empty. Its entry is the text filtered with the default 3 (not the configured `min_words`) and the parsed description, even when the filtered text is empty. |
| Parsing.UrlDataForOrder | nodes/DataParsingNode.py:23-28 | Keys appear in the order of their first occurrence in the URL list, a repeated URL keeping its first place; every key is a listed URL, and the keys are a subsequence of the list. |
| Parsing.DataParsingNode.constructor | nodes/DataParsingNode.py:14-15 | Stores the configured `min_words`. |
| Parsing.DataParsingNode.Process | nodes/DataParsingNode.py:18-34 | Sets the element's `url_data` to the dict built from its URL list. The URL list, collection name and chunks are unchanged. |
| Chunking.FilterText | chunking.py:38-67 | An empty text gives `''`. Every line of a non-empty result has strictly more than `minWords` words, is stripped and has no stop phrase. The result is a subsequence of the stripped input lines. Conversely, every input line with more than `minWords` words that comes before the first passing line with a stop phrase is, stripped, a line of the result. A non-empty result's lines are exactly the kept lines before the first kept line with a stop phrase, so nothing from that line on survives. |
| Chunking.FilterTextIdempotent | chunking.py:52-67 | The strict `filter_text` is idempotent. |
| Chunking.Labelled | chunking.py:91-95 | One chunk per splitter piece, each equal to `"[Источник: " + description + "]\n" + piece`. |
| Chunking.AllChunksCount | chunking.py:89-97 | The number of chunks is the sum of the per-document piece counts. |
| Chunking.AllChunksAt | chunking.py:89-95 | Piece `j` of document `k` is at position (pieces of documents before `k`) + `j`, labelled with document `k`'s description. |
| Chunking.GenerateChunks | chunking.py:70-97 | The nested loops produce the documents' labelled pieces in insertion order, then splitter order. |
| VectorDB.AfterCreate | nodes/VectorDBNode.py:29-44 | Create is a no-op when the collection exists, otherwise it adds an empty collection of the configured dimension. It changes no other collection. |
| VectorDB.AfterDelete | nodes/VectorDBNode.py:85-89 | Delete removes the collection when present, otherwise it is a no-op. It changes no other collection. |
| VectorDB.InsertColumns | nodes/VectorDBNode.py:142-152 | Text `i` is chunk `i` and length `i` is `len(chunk i)`. All rows share one timestamp. Each column has `len(chunks)` entries. |
| VectorDB.RowsOf | nodes/VectorDBNode.py:147-152 | Row `i` is made of entry `i` of each column. |
| VectorDB.AfterInsert | nodes/VectorDBNode.py:137-155 | A missing collection returns with the store unchanged, and so do `None` chunks and refused columns. When the columns are accepted, one record per chunk (its vector, text, length and the timestamp) is appended after the old records, and nothing else changes. |
| VectorDB.FirstOccurrencesDistinct | nodes/VectorDBNode.py:207-217 | The de-duplicated hits hold no two equal texts. |
| VectorDB.FirstOccurrencesSubsequence | nodes/VectorDBNode.py:208-217 | They are an order-preserving subsequence of the raw hits and never longer than them. |
| VectorDB.FirstOccurrencesTexts | nodes/VectorDBNode.py:208-217 | Every text among the raw hits survives. |
| VectorDB.FirstOccurrencesKeepsFirst | nodes/VectorDBNode.py:215-217 | The first hit with each text is kept whole, with its distance and length. |
| VectorDB.VectorDBNode.constructor | nodes/VectorDBNode.py:12-17 | Stores the dimension and starts from the server's current collections. |
| VectorDB.VectorDBNode.CreateMilvusCollection | nodes/VectorDBNode.py:20-45 | The new server state is `AfterCreate` of the old one. |
| VectorDB.VectorDBNode.DeleteMilvusCollection | nodes/VectorDBNode.py:78-89 | The new server state is `AfterDelete` of the old one. |
| VectorDB.VectorDBNode.ListMilvusCollections | nodes/VectorDBNode.py:91-100 | Returns exactly the names of the server's collections. |
| VectorDB.VectorDBNode.InsertDataIntoMilvus | nodes/VectorDBNode.py:128-156 | The new state and the outcome are `AfterInsert` of the old state. |
| VectorDB.VectorDBNode.SearchSimilarChunks | nodes/VectorDBNode.py:159-218 | Returns `[]` for a missing collection or a search that raises. Otherwise the loop with `seen_text` returns the first occurrences. They have distinct texts, form a subsequence of the hits, cover every hit text and keep each text's first hit. |
| Ingestion.EmbedDocuments | nodes/EmbedderNode.py:19-28 | Success exactly on status 200, with the answer's vectors. Any other status fails with the status and body. |
| Ingestion.IngestSpec | services/MakeDatasetRAG.py:45-49 | A failed embedding leaves the store untouched. After a successful one, the collection exists with the configured dimension and no earlier record. It holds one record per chunk of this run exactly when the insert is accepted, and is empty otherwise. No other collection changes. |
| Ingestion.IngestTwiceReplaces | services/MakeDatasetRAG.py:47-49 | A second successful run with the same chunks leaves the same number of records with the same texts and lengths. It replaces rather than appends. |
| Ingestion.ProcessWithoutChunksWipes | services/MakeDatasetRAG.py:36-49 | With `chunks = None` a successful embedding still empties the collection, and the insert then fails. |
| Ingestion.MakeDatasetRAG.constructor | services/MakeDatasetRAG.py:23-30 | Builds the parsing node and the vector DB node from the configuration. |
| Ingestion.MakeDatasetRAG.Ingest | services/MakeDatasetRAG.py:45-49 | Embed, delete, create, insert, in that order. The result is `IngestSpec` of the old store. |
| Ingestion.MakeDatasetRAG.Process | services/MakeDatasetRAG.py:34-49 | As written. With `show_data_info` the dump raises on `None` chunks before the store is touched. Otherwise the run is `Ingest` on `None` and never stores a chunk. |
| Ingestion.MakeDatasetRAG.ProcessWithChunking | chunking.py:70-97 | Corrected run: the chunks of `generate_chunks` over the parsed pages are embedded and ingested. |
| DataElements.DataElement.constructor | elements/DataElement.py:5-15 | `collection_db_name` defaults to `"default"`. `url_data` and `chunks` default to `None`. |
| DataElements.DataElement.ToString | elements/DataElement.py:17-32 | When the name and URLs hold no line feed, the summary's lines are the header, the name line, the URL, data and chunks parts, and `)`. |
| DataElements.UrlsPart | elements/DataElement.py:21 | `"No URLs"` for an empty list, the URL itself for one. Otherwise each URL in turn, each followed by `", "` except the last, which ends the part; the length is the URLs' total plus 2 per separator. |
| DataElements.CountPart | elements/DataElement.py:22-23 | `none` for 0. Otherwise the decimal count, a space and the unit, and the count reads back from the text. |
| DataElements.DataPart | elements/DataElement.py:22 | `"No data"` exactly when `url_data` is `None` or empty. Otherwise `"<n> entries"` with `n` readable back. |
| DataElements.ChunksPart | elements/DataElement.py:23 | `"No chunks"` exactly when `chunks` is `None` or empty. Otherwise `"<n> chunks"` with `n` readable back. |
| DataElements.TextsOf | elements/DataElement.py:43 | At most one text per entry. When every entry has a `text`, these are exactly the `text`s in order. When none has one, the list is empty. Every text comes from some entry's `text`. |
| DataElements.TextsOfCons | elements/DataElement.py:43 | The texts of an entry followed by more entries: its own `text` if it has one (else nothing), then theirs. |
| DataElements.TextsOfAppend | elements/DataElement.py:43 | The texts of `a + b` are the texts of `a` followed by those of `b`. |
| DataElements.CombinedText | elements/DataElement.py:43 | `''` when there are no texts. Otherwise each text in turn, each followed by `"\n\n\n"` except the last, which ends the string; its length is the texts' total plus 3 per separator. |
| DataElements.ChunkRecords | elements/DataElement.py:61-62 | One record per chunk, record `i` for chunk `i`. |
| DataElements.RecordOfLayout | elements/DataElement.py:62 | A record (record `i` has the decimal `i + 1` and the chunk's decimal length written out) is, end to end and with nothing else: the lead `"Чанк "`, the number, `" ("`, the length, `" символов):\n"`, the chunk, and a line feed, 50 `=` and a line feed. |
| DataElements.HeaderReadsBack | elements/DataElement.py:61-62 | A record that writes a number `n` and a length `l` in decimal between its separators holds digits that parse back as `n` and `l`, and the chunk follows them unchanged; `ChunkRecord(i, chunk)` is such a record with `n = i + 1` and `l = len(chunk)`. |
| DataElements.DataElement.ChunksDump | elements/DataElement.py:51-62 | The loop writes the concatenation of the records in chunk order, of the total records' length. |
| QueryElements.QueryElement.constructor | elements/QueryElement.py:4-25 | `upgraded_query` starts as `query`. The number defaults to 0, the history to `[]`, and the embedding, chunk, prompt and answer fields to `None`. |
| QueryElements.Truncate | elements/QueryElement.py:40 | Content of at most `limit` characters is shown unchanged. Longer content is `content[:limit] + "..."`, which for `limit >= 0` is `limit + 3` characters long. |
| QueryElements.ChunkLineFields | elements/QueryElement.py:39-42 | Line `i` carries number `i + 1` (readable back), then the truncated content, then the metadata or `{}`. |
| QueryElements.DisplayChunks | elements/QueryElement.py:28-42 | An empty or `None` list prints only the no-chunks message. Otherwise one line per chunk, in order. |
| QueryElements.QueryElement.DisplayFinalPrompt | elements/QueryElement.py:45-61 | A falsy prompt prints the "missing" line. A list prints the header and then, per message, `type: content` or the invalid-format report when `type` or `content` is lacking. A string prints the unsupported-type line. |
| Text.TrimStartSuffix | nodes/DataParsingNode.py:83 | What `lstrip()` keeps is a tail of the line. |
| Text.StripIdempotent | nodes/DataParsingNode.py:83 | `strip()` applied twice equals once. |
| Text.WordCountStrip | chunking.py:53 | Surrounding whitespace does not change `len(line.split())`. |
| Text.JoinSplitLines | nodes/DataParsingNode.py:82 | Joining the pieces of `split("\n")` with `"\n"` gives the text back. |
| Text.SplitJoinLines | nodes/DataParsingNode.py:97 | Splitting a `"\n"`-join of line-feed-free lines gives the lines back. |
| Text.JoinDrop | nodes/DataParsingNode.py:97 | From the start of part `i` on, a join is the join of the parts from `i` on. |
| Text.JoinLayout | elements/DataElement.py:21 | Part `i` of `sep.join(parts)` sits at its offset, followed by `sep` unless it is the last part, which ends the join. |
| Text.ParseNatToString | elements/DataElement.py:62 | `str(n)` is decimal digits that read back as `n`. |

## Left out

- `parse_url` (nodes/DataParsingNode.py:37-65, chunking.py:7-35) does HTTP and BeautifulSoup work. It is the parameter `parse`, assumed to give the same answer for the same URL within one run.
- The LangChain `RecursiveCharacterTextSplitter` (chunking.py:82-87) is the parameter `split`. Its separators, `chunk_size` and `chunk_overlap` are not modelled.
- Milvus internals are not modelled: the connection, `create_index` and its unconditional self-call (nodes/VectorDBNode.py:47-76), index discovery and loading (176-183), and similarity ranking over floats.
- The `auto_id` primary keys of the schema are not modelled.
- An error raised by index set-up in `search_similar_chunks` escapes the method. It is not modelled.
- `display_first_n_records` is logging only. It is not part of this model.
- VectorDB.AfterInsert assumes the server refuses columns of unequal length or vectors of the wrong dimension, and the client then raises. The Milvus server's own checks are not part of this model.
- VectorDB.VectorDBNode.SearchSimilarChunks: `client.search` is the parameter `searchResult`, already flattened to one hit sequence (`None` when the call raises). `query_embedding` and `top_k` only reach that call. The per-query nesting of the raw result is not modelled.
- `EmbedderNode` (nodes/EmbedderNode.py) is an HTTP call. Its answer is the parameter `embed`, from the chunk list (`None` included) to a status, vectors and body. `embed_query` is not part of this model.
- The clock (`time.time()`) is the parameter `now`.
- `AskLLM`, `LLMNode` and `RerankerNode`, the Streamlit pages and `utils_local/utils.py` are not part of this model.
- Logging, `print` and file writes are not modelled. The save and display methods return the strings they would write or print.
- QueryElements.QueryElement.DisplayFinalPrompt: the `repr` of an invalid message is the parameter `show`. Only string, list and `None` prompts are modelled; other Python types are not. Message values are strings.
- QueryElements.QueryElement.constructor: Python's shared mutable default `previous_messages=[]` is modelled as a fresh empty sequence.
- QueryElements.Document: the `hasattr(chunk, 'metadata')` check is an `Option`, and the metadata's rendering is a string.
- Chunking.GenerateChunks requires every entry to have both `text` and `description`. The source raises `KeyError` otherwise, and that path is not modelled.
- Ingestion.MakeDatasetRAG.ProcessWithChunking does not model `show_data_info`. Once chunks exist, that branch only writes files and prints.
- DataElements.DataElement.ChunksDump requires `chunks` to be a list. On `None`, `save_chunks` raises; its only call site (services/MakeDatasetRAG.py:41) is modelled, raise included, in Ingestion.MakeDatasetRAG.Process.
- DataElements.DataElement.ToString states the summary's lines only when the collection name and URLs hold no line feed. Otherwise the lines do not split back apart.

## Findings

| source | as written | input that shows it | evidently intended | confidence | as-written member | corrected member |
|---|---|---|---|---|---|---|
| services/MakeDatasetRAG.py:38 | The chunking stage is the identity (nodes/ChunkingNode.py:15-17), so `data_element.chunks` is still `None` when it is embedded and inserted. | Any URL list, with `show_data_info=False` and an embedder that answers 200. The target collection is deleted and re-created empty, then the insert raises `TypeError` on `None`. With `show_data_info=True`, `save_chunks` raises first. | Put `generate_chunks(url_data)` on the element before embedding, so that the collection ends up with one record per chunk. | not executed | Ingestion.ProcessWithoutChunksWipes | Ingestion.MakeDatasetRAG.ProcessWithChunking |
